/** One-time review receipts, bound to a session, an intent and a resource revision.

    With a coordinator the revisions live in Redis, and other processes and threads interleave with
    every command; without one they live in the store.  Either way a receipt is consumed at most
    once, and not after its resource has been consumed or invalidated by anyone.  ReviewRuns states
    this for runs of several stores.
 */
module ReviewReceipts {
  import opened ReviewRedis
  import opened ReviewCoordinator
  import opened ReviewServer
  import opened Wrappers

  /** Random tokens are modelled as a fresh supply, in the order of their creation. */
  type Token = nat

  const TTL_SECONDS := 600
  const MAX_ITEMS := 4096

  datatype Receipt = Receipt(session: string, intent: string, expiresAt: int, key: Option<Key>,
                             revision: Option<nat>, epoch: Option<Epoch>)

  /** Where a receipt's review took place: the positions of its two reads in the shared run, or how
      many reviews had been ended in its own store. */
  datatype Evidence = Evidence(epochAt: nat, revisionAt: nat, endsAt: nat)

  /** Unserved stands for the raised coordination error. */
  datatype Outcome = Consumed | Denied | Unserved

  function Unexpired(items: map<Token, Receipt>, now: int): map<Token, Receipt> {
    map t | t in items && items[t].expiresAt > now :: items[t]
  }

  /** The request matches the receipt it presents. */
  predicate Matches(receipt: Receipt, session: string, intent: string, key: Option<Key>) {
    receipt.session == session && receipt.intent == intent && receipt.key == key
  }

  /** An unexpired receipt that matches the request. */
  ghost predicate Presents(items: map<Token, Receipt>, token: Token, session: string, intent: string, key: Option<Key>, now: int) {
    token in items && items[token].expiresAt > now && Matches(items[token], session, intent, key)
  }

  function Revision(revisions: map<Key, nat>, key: Key): nat {
    if key in revisions then revisions[key] else 0
  }

  // ----- What a store keeps true ---------------------------------------------------------------

  /** How often the reviews of a key have been ended, by a consume or an invalidation. */
  function Count(ends: seq<Key>, key: Key): nat {
    if ends == [] then 0 else Count(ends[..|ends| - 1], key) + One(ends[|ends| - 1] == key)
  }

  lemma {:induction false} CountOne(ends: seq<Key>, e: Key, key: Key)
    ensures Count(ends + [e], key) == Count(ends, key) + One(e == key)
  {
    assert (ends + [e])[..|ends + [e]| - 1] == ends;
  }

  ghost predicate NotEndedSince(ends: seq<Key>, n: nat, key: Key) {
    forall k | n <= k < |ends| :: ends[k] != key
  }

  /** A count has not grown exactly if the key has not been ended in between. */
  lemma {:induction false} CountPart(ends: seq<Key>, n: nat, key: Key)
    requires n <= |ends|
    ensures Count(ends[..n], key) <= Count(ends, key)
    ensures Count(ends[..n], key) == Count(ends, key) <==> NotEndedSince(ends, n, key)
    decreases |ends|
  {
    if n == |ends| {
      assert ends[..n] == ends;
    } else {
      var init := ends[..|ends| - 1];
      CountPart(init, n, key);
      assert init[..n] == ends[..n];
      assert forall k | n <= k < |init| :: init[k] == ends[k];
    }
  }

  /** Tokens are handed out once, and a spent one is gone. */
  ghost predicate Tokens(items: map<Token, Receipt>, nextToken: Token, spent: set<Token>) {
    && (forall t | t in items :: t < nextToken && t !in spent)
    && (forall t | t in spent :: t < nextToken)
  }

  /** With a coordinator: every stored receipt of a resource was reviewed in the shared run. */
  ghost predicate Evidenced(items: map<Token, Receipt>, evidence: map<Token, Evidence>, run: seq<Command>) {
    forall t | t in items && items[t].key.Some? :: EvidencedAt(items[t], evidence, t, run)
  }

  ghost predicate EvidencedAt(receipt: Receipt, evidence: map<Token, Evidence>, t: Token, run: seq<Command>)
    requires receipt.key.Some?
  {
    && t in evidence && receipt.epoch.Some? && receipt.revision.Some?
    && Reviewed(run, evidence[t].epochAt, evidence[t].revisionAt, receipt.key.value, receipt.epoch.value, receipt.revision.value)
  }

  /** Without one: revisions count the ends, and every stored receipt carries the count at its review. */
  ghost predicate Counted(items: map<Token, Receipt>, evidence: map<Token, Evidence>, revisions: map<Key, nat>, ends: seq<Key>) {
    && (forall key :: Revision(revisions, key) == Count(ends, key))
    && forall t | t in items && items[t].key.Some? :: CountedAt(items[t], evidence, t, ends)
  }

  ghost predicate CountedAt(receipt: Receipt, evidence: map<Token, Evidence>, t: Token, ends: seq<Key>)
    requires receipt.key.Some?
  {
    && t in evidence && receipt.revision.Some? && evidence[t].endsAt <= |ends|
    && receipt.revision.value == Count(ends[..evidence[t].endsAt], receipt.key.value)
  }

  predicate Submap(items: map<Token, Receipt>, items': map<Token, Receipt>) {
    items'.Keys <= items.Keys && forall t | t in items' :: items'[t] == items[t]
  }

  /** What is left is unchanged, and what is gone is older. */
  ghost predicate EvictsOldest(items: map<Token, Receipt>, items': map<Token, Receipt>) {
    Submap(items, items') && forall t, u | t in items && t !in items' && u in items' :: t < u
  }

  lemma {:induction false} WithoutOldest(items: map<Token, Receipt>, oldest: Token)
    requires oldest in items && forall t | t in items.Keys :: oldest <= t
    ensures EvictsOldest(items, items - {oldest}) && Submap(items, items - {oldest})
    ensures |items - {oldest}| == |items| - 1
  {
    assert (items - {oldest}).Keys == items.Keys - {oldest};
  }

  lemma {:induction false} NothingEvicted(items: map<Token, Receipt>)
    ensures EvictsOldest(items, items)
  {
  }

  /** Dropping receipts keeps everything. */
  lemma {:induction false} FewerItems(items: map<Token, Receipt>, items': map<Token, Receipt>, nextToken: Token,
                                      spent: set<Token>, evidence: map<Token, Evidence>)
    requires Tokens(items, nextToken, spent) && Submap(items, items')
    ensures Tokens(items', nextToken, spent) && |items'| <= |items|
    ensures forall run :: Evidenced(items, evidence, run) ==> Evidenced(items', evidence, run)
    ensures forall revisions, ends :: Counted(items, evidence, revisions, ends) ==> Counted(items', evidence, revisions, ends)
  {
    hide EvidencedAt, CountedAt, Count, Revision;
    SubsetSize(items'.Keys, items.Keys);
  }

  lemma {:induction false} PrefixKeepsBefore(a: seq<Command>, b: seq<Command>, at: nat)
    requires a <= b && at <= |a|
    ensures Before(a, at) == Before(b, at)
  {
    assert a[..at] == b[..at];
  }

  /** Evidence survives as the shared run goes on. */
  lemma {:induction false} LongerRun(items: map<Token, Receipt>, evidence: map<Token, Evidence>, run: seq<Command>,
                                     run': seq<Command>)
    requires Evidenced(items, evidence, run) && run <= run'
    ensures Evidenced(items, evidence, run')
  {
    hide Before;
    forall t | t in items && items[t].key.Some?
      ensures EvidencedAt(items[t], evidence, t, run')
    {
      assert EvidencedAt(items[t], evidence, t, run);
      PrefixKeepsBefore(run, run', evidence[t].epochAt);
      PrefixKeepsBefore(run, run', evidence[t].revisionAt);
    }
  }

  lemma {:induction false} StillAdvances(run: seq<Command>, run': seq<Command>, at: nat, key: Key, epoch: Epoch, revision: nat)
    requires Advances(run, at, key, epoch, revision) && run <= run'
    ensures Advances(run', at, key, epoch, revision)
  {
    PrefixKeepsBefore(run, run', at);
  }

  /** One more ended review. */
  lemma {:induction false} OneMoreEnd(items: map<Token, Receipt>, evidence: map<Token, Evidence>, revisions: map<Key, nat>,
                                      ends: seq<Key>, key: Key)
    requires Counted(items, evidence, revisions, ends)
    ensures Counted(items, evidence, revisions[key := Revision(revisions, key) + 1], ends + [key])
  {
    hide Count;
    forall other
      ensures Revision(revisions[key := Revision(revisions, key) + 1], other) == Count(ends + [key], other)
    {
      CountOne(ends, key, other);
      assert Revision(revisions, other) == Count(ends, other);
    }
    forall t | t in items && items[t].key.Some?
      ensures CountedAt(items[t], evidence, t, ends + [key])
    {
      assert CountedAt(items[t], evidence, t, ends);
      assert (ends + [key])[..evidence[t].endsAt] == ends[..evidence[t].endsAt];
    }
  }

  // ----- Reviews and claims ----------------------------------------------------------------------

  /** No command advances the key between two positions of the run, in any generation. */
  ghost predicate NoAdvance(run: seq<Command>, lo: nat, hi: nat, key: Key) {
    forall k, epoch, revision | lo <= k < hi :: !Advances(run, k, key, epoch, revision)
  }

  /** A review that is consumed had nothing between its reading and its own advance: any other
      advance of the key would have ended it. */
  lemma {:induction false} ReviewIsUndisturbed(run: seq<Command>, epochAt: nat, revisionAt: nat, at: nat, key: Key,
                                               epoch: Epoch, revision: nat)
    requires Reviewed(run, epochAt, revisionAt, key, epoch, revision)
    requires revisionAt <= at && Advances(run, at, key, epoch, revision)
    ensures NoAdvance(run, revisionAt, at, key)
  {
    hide Before, Run;
    forall k, e, r | revisionAt <= k < at
      ensures !Advances(run, k, key, e, r)
    {
      GenerationIsUnbroken(run, epochAt, k, at, epoch);
      if e == epoch && Advances(run, k, key, epoch, r) {
        LaterAdvanceKillsReview(run, epochAt, revisionAt, k, key, epoch, revision, r);
      }
    }
  }

  /** What a new receipt is bound to: the generation first, the revision second. */
  method CurrentReview(coordinator: Coordinator, key: Key)
    returns (r: Result<(Epoch, nat)>, ghost epochAt: nat, ghost revisionAt: nat)
    requires coordinator.server.Valid()
    modifies coordinator, coordinator.server
    ensures coordinator.server.Valid() && old(coordinator.server.run) <= coordinator.server.run
    ensures r.Ok? ==>
              && |old(coordinator.server.run)| <= epochAt
              && Reviewed(coordinator.server.run, epochAt, revisionAt, key, r.value.0, r.value.1)
    ensures coordinator.server.calm && old(coordinator.InStep()) ==>
              coordinator.InStep() && r.Ok? && Alive(coordinator.server.state, key, r.value.0, r.value.1)
  {
    hide EpochSection, RevisionSection, Run, Extends, Agrees;
    epochAt, revisionAt := 0, 0;
    var epoch, epochReplies, epochEntered, seenAt := coordinator.CurrentEpoch();
    if epoch.Unavailable? {
      return Unavailable, epochAt, revisionAt;
    }
    ghost var seen := coordinator.server.run;
    var revision, replies, entered, readAt := coordinator.CurrentRevision(key);
    if revision.Unavailable? {
      return Unavailable, epochAt, revisionAt;
    }
    PrefixKeepsBefore(seen, coordinator.server.run, seenAt);
    epochAt, revisionAt := seenAt, readAt;
    r := Ok((epoch.value, revision.value));
  }

  /** What the coordinator answered to the calls of a claim; a call that is not made has no answer. */
  datatype Answers = Answers(epoch: Result<Epoch>, revision: Option<Result<int>>, advanced: Option<Result<bool>>)

  /** The coordinated part of a consume: compare, then advance.  It is unserved exactly if a call was,
      and denied exactly if an answer differs from the receipt or the advance was refused. */
  method ClaimReview(coordinator: Coordinator, key: Key, epoch: Epoch, revision: nat, caller: nat)
    returns (r: Outcome, ghost at: nat, ghost answers: Answers)
    requires coordinator.server.Valid()
    modifies coordinator, coordinator.server
    ensures coordinator.server.Valid() && old(coordinator.server.run) <= coordinator.server.run
    ensures r.Consumed? ==>
              && |old(coordinator.server.run)| <= at
              && Advances(coordinator.server.run, at, key, epoch, revision)
              && coordinator.server.run[at].caller == caller
    ensures r.Consumed? <==> answers == Answers(Ok(epoch), Some(Ok(revision)), Some(Ok(true)))
    ensures r.Denied? <==>
              || (answers.epoch.Ok? && answers.epoch.value != epoch)
              || (answers.revision.Some? && answers.revision.value.Ok? && answers.revision.value.value != revision)
              || answers.advanced == Some(Ok(false))
    ensures r.Unserved? <==>
              answers.epoch.Unavailable? || answers.revision == Some(Unavailable) || answers.advanced == Some(Unavailable)
    ensures coordinator.server.calm && old(coordinator.InStep()) && old(Known(coordinator.server.state, key)) ==>
              && coordinator.InStep()
              && r == (if old(Alive(coordinator.server.state, key, epoch, revision)) then Consumed else Denied)
              && coordinator.server.state ==
                 if r.Consumed? then Execute(old(coordinator.server.state), Advance(caller, key, epoch, revision))
                 else old(coordinator.server.state)
  {
    hide EpochSection, RevisionSection, AdvanceSection, Run, Extends, Agrees;
    at := 0;
    var currentEpoch, epochReplies, epochEntered, seenAt := coordinator.CurrentEpoch();
    answers := Answers(currentEpoch, None, None);
    if currentEpoch.Unavailable? {
      return Unserved, at, answers;
    }
    if epoch != currentEpoch.value {
      return Denied, at, answers;
    }
    var currentRevision, replies, revisionEntered, readAt := coordinator.CurrentRevision(key);
    answers := answers.(revision := Some(currentRevision));
    if currentRevision.Unavailable? {
      return Unserved, at, answers;
    }
    if revision != currentRevision.value {
      return Denied, at, answers;
    }
    var advanced, result, entered, advancedAt := coordinator.AdvanceIfCurrent(caller, key, revision, epoch);
    answers := answers.(advanced := Some(advanced));
    if advanced.Unavailable? {
      return Unserved, at, answers;
    }
    if !advanced.value {
      return Denied, at, answers;
    }
    return Consumed, advancedAt, answers;
  }

  /** The generation has begun and the resource has a revision. */
  predicate Known(s: State, key: Key) {
    s.epoch.Some? && key in s.revisions
  }

  /** The token created first. */
  method FindOldest(tokens: set<Token>) returns (oldest: Token)
    requires |tokens| > 0
    ensures oldest in tokens && forall t | t in tokens :: oldest <= t
  {
    oldest :| oldest in tokens;
    var rest := tokens - {oldest};
    while rest != {}
      invariant rest <= tokens && oldest in tokens && forall t | t in tokens && t !in rest :: oldest <= t
      decreases |rest|
    {
      var t: Token :| t in rest;
      rest := rest - {t};
      oldest := if t < oldest then t else oldest;
    }
  }

  /** The receipt carries the generation and the revision of the state. */
  ghost predicate IsCurrent(receipt: Receipt, s: State) {
    && receipt.key.Some? && receipt.epoch.Some? && receipt.revision.Some?
    && Alive(s, receipt.key.value, receipt.epoch.value, receipt.revision.value)
  }

  // ----- The store -----------------------------------------------------------------------------

  class ReviewReceiptStore {
    var items: map<Token, Receipt>
    var nextToken: Token
    var localRevisions: map<Key, nat>
    const coordinator: Coordinator?

    ghost var evidence: map<Token, Evidence>
    ghost var spent: set<Token>
    /** The keys whose reviews were ended here, in order; only used without a coordinator. */
    ghost var ends: seq<Key>

    ghost predicate Valid()
      reads this, if coordinator == null then {} else {coordinator.server}
    {
      && |items| <= MAX_ITEMS && Tokens(items, nextToken, spent)
      && (coordinator == null ==> Counted(items, evidence, localRevisions, ends))
      && (coordinator != null ==> coordinator.server.Valid() && Evidenced(items, evidence, coordinator.server.run))
    }

    /** The coordinator and the server it shares with other processes. */
    ghost function Shared(): set<object>
    {
      if coordinator == null then {} else {coordinator, coordinator.server}
    }

    function LocalRevision(key: Key): nat
      reads this`localRevisions
    {
      Revision(localRevisions, key)
    }

    /** The shared run only grows. */
    twostate predicate Continues()
      reads if coordinator == null then {} else {coordinator.server}
    {
      coordinator != null ==> old(coordinator.server.run) <= coordinator.server.run
    }

    constructor (coordinator: Coordinator?)
      requires coordinator != null ==> coordinator.server.Valid()
      ensures Valid() && items == map[] && spent == {} && ends == [] && this.coordinator == coordinator
    {
      items, nextToken, localRevisions := map[], 0, map[];
      evidence, spent, ends := map[], {}, [];
      this.coordinator := coordinator;
    }

    method Purge(now: int)
      requires Valid()
      modifies this`items
      ensures Valid() && items == Unexpired(old(items), now)
    {
      hide Tokens, Evidenced, Counted;
      FewerItems(items, Unexpired(items, now), nextToken, spent, evidence);
      items := Unexpired(items, now);
    }

    /** A full store drops its oldest receipt. */
    method EvictIfFull()
      requires Valid()
      modifies this`items
      ensures Valid() && |items| < MAX_ITEMS && EvictsOldest(old(items), items)
      ensures items == old(items) <==> |old(items)| < 4096
      ensures |old(items)| == 4096 ==> |items| == 4095
    {
      hide Tokens, Evidenced, Counted, EvictsOldest, Submap;
      if |items| >= MAX_ITEMS {
        var oldest := FindOldest(items.Keys);
        WithoutOldest(items, oldest);
        FewerItems(items, items - {oldest}, nextToken, spent, evidence);
        items := items - {oldest};
      } else {
        NothingEvicted(items);
      }
    }

    /** Drops the expired receipts and makes room for one more. */
    method MakeRoom(now: int)
      requires Valid()
      modifies this`items
      ensures Valid() && |items| < MAX_ITEMS && EvictsOldest(Unexpired(old(items), now), items)
      ensures forall t | t in old(items) :: t < nextToken
    {
      hide Evidenced, Counted, Unexpired, EvictsOldest;
      Purge(now);
      EvictIfFull();
    }

    method Store(receipt: Receipt, ghost proof: Evidence) returns (token: Token)
      requires Valid() && |items| < MAX_ITEMS
      requires receipt.key.Some? && coordinator == null ==> CountedAt(receipt, map[nextToken := proof], nextToken, ends)
      requires receipt.key.Some? && coordinator != null ==>
                 EvidencedAt(receipt, map[nextToken := proof], nextToken, coordinator.server.run)
      modifies this`items, this`nextToken, this`evidence
      ensures Valid()
      ensures token == old(nextToken) && token !in old(items) && items == old(items)[token := receipt]
      ensures evidence == old(evidence)[token := proof]
    {
      hide Reviewed, Count, Revision;
      token := nextToken;
      nextToken := nextToken + 1;
      items := items[token := receipt];
      evidence := evidence[token := proof];
    }

    /** The revision, and with a coordinator the generation, that a new receipt is bound to. */
    method Bind(receipt: Receipt) returns (r: Result<Receipt>, ghost proof: Evidence)
      requires Valid()
      modifies Shared()
      ensures Valid() && Continues()
      ensures coordinator == null || receipt.key.None? ==> r.Ok?
      ensures r.Ok? ==> r.value == receipt.(revision := r.value.revision, epoch := r.value.epoch)
      ensures r.Ok? && receipt.key.Some? && coordinator == null ==>
                && CountedAt(r.value, map[nextToken := proof], nextToken, ends)
                && r.value.revision == Some(LocalRevision(receipt.key.value)) && proof.endsAt == |ends|
      ensures r.Ok? && receipt.key.Some? && coordinator != null ==>
                && EvidencedAt(r.value, map[nextToken := proof], nextToken, coordinator.server.run)
                && |old(coordinator.server.run)| <= proof.epochAt
      ensures receipt.key.Some? && coordinator != null && coordinator.server.calm && old(coordinator.InStep()) ==>
                r.Ok? && coordinator.InStep() && IsCurrent(r.value, coordinator.server.state)
    {
      hide Reviewed, Run, Tokens, Evidenced, Count, Agrees;
      proof := Evidence(0, 0, |ends|);
      if receipt.key.None? {
        r := Ok(receipt);
        return;
      }
      if coordinator == null {
        assert ends[..|ends|] == ends;
        r := Ok(receipt.(revision := Some(LocalRevision(receipt.key.value))));
        return;
      }
      ghost var run := coordinator.server.run;
      var review, seenAt, readAt := CurrentReview(coordinator, receipt.key.value);
      LongerRun(items, evidence, run, coordinator.server.run);
      if review.Unavailable? {
        r := Unavailable;
        return;
      }
      proof := Evidence(seenAt, readAt, 0);
      r := Ok(receipt.(revision := Some(review.value.1), epoch := Some(review.value.0)));
    }

    /** A receipt for the current revision.  When the coordination fails nothing is stored. */
    method Issue(session: string, intent: string, key: Option<Key>, now: int) returns (r: Result<Token>)
      requires Valid()
      modifies this, Shared()
      ensures Valid() && Continues()
      ensures coordinator == null || key.None? ==> r.Ok?
      ensures unchanged(this`localRevisions, this`spent, this`ends)
      ensures EvictsOldest(Unexpired(old(items), now), if r.Ok? then items - {r.value} else items)
      ensures evidence == if r.Ok? && r.value in evidence then old(evidence)[r.value := evidence[r.value]] else old(evidence)
      ensures r.Ok? ==> r.value in evidence
      ensures r.Ok? ==>
                && r.value !in old(items) && r.value in items
                && Matches(items[r.value], session, intent, key)
                && items[r.value].expiresAt == now + 600
      ensures r.Ok? && key.Some? && coordinator == null ==>
                items[r.value].revision == Some(LocalRevision(key.value)) && evidence[r.value].endsAt == |ends|
      ensures r.Ok? && key.Some? && coordinator != null ==>
                && EvidencedAt(items[r.value], evidence, r.value, coordinator.server.run)
                && |old(coordinator.server.run)| <= evidence[r.value].epochAt
      ensures key.Some? && coordinator != null && coordinator.server.calm && old(coordinator.InStep()) ==>
                r.Ok? && coordinator.InStep() && IsCurrent(items[r.value], coordinator.server.state)
    {
      hide Tokens, Evidenced, Counted, EvidencedAt, CountedAt, Unexpired, Revision, EvictsOldest, Agrees, IsCurrent;
      MakeRoom(now);
      ghost var kept := items;
      var receipt := Receipt(session, intent, now + TTL_SECONDS, key, None, None);
      var bound;
      ghost var proof;
      bound, proof := Bind(receipt);
      if bound.Unavailable? {
        return Unavailable;
      }
      var token := Store(bound.value, proof);
      assert items - {token} == kept;
      SameEvidence(items[token], evidence, token, proof);
      return Ok(token);
    }

    /** Removes a consumed receipt for good. */
    method Burn(token: Token)
      requires Valid() && token in items
      modifies this`items, this`spent
      ensures Valid() && items == old(items) - {token} && spent == old(spent) + {token}
    {
      hide Evidenced, Counted;
      FewerItems(items, items - {token}, nextToken, spent, evidence);
      items := items - {token};
      spent := spent + {token};
    }

    /** Ends every outstanding review of a resource in this store. */
    method EndLocally(key: Key)
      requires Valid() && coordinator == null
      modifies this`localRevisions, this`ends
      ensures Valid() && ends == old(ends) + [key]
      ensures localRevisions == old(localRevisions)[key := old(LocalRevision(key)) + 1]
    {
      hide Tokens, Counted;
      OneMoreEnd(items, evidence, localRevisions, ends, key);
      localRevisions := localRevisions[key := LocalRevision(key) + 1];
      ends := ends + [key];
    }

    /** Consuming without a coordinator: exactly the receipts whose review has not been ended since. */
    method ConsumeLocally(token: Token, key: Key) returns (r: Outcome)
      requires Valid() && coordinator == null && token in items && items[token].key == Some(key)
      modifies this`items, this`spent, this`localRevisions, this`ends
      ensures Valid() && !r.Unserved?
      ensures r.Consumed? <==> NotEndedSince(old(ends), evidence[token].endsAt, key)
      ensures r.Consumed? ==> items == old(items) - {token} && spent == old(spent) + {token}
      ensures r.Consumed? ==>
                && old(items)[token].revision == Some(old(LocalRevision(key))) && ends == old(ends) + [key]
                && localRevisions == old(localRevisions)[key := old(LocalRevision(key)) + 1]
      ensures r.Denied? ==> unchanged(this)
    {
      hide Tokens, Count, NotEndedSince;
      assert CountedAt(items[token], evidence, token, ends);
      CountPart(ends, evidence[token].endsAt, key);
      assert Revision(localRevisions, key) == Count(ends, key);
      if items[token].revision.value != LocalRevision(key) {
        return Denied;
      }
      Burn(token);
      EndLocally(key);
      r := Consumed;
    }

    /** Consuming with a coordinator: this caller's own command advanced the reviewed revision, and
        nobody had advanced the resource since its review. */
    method ConsumeShared(token: Token, key: Key, caller: nat) returns (r: Outcome, ghost at: nat)
      requires Valid() && coordinator != null && token in items && items[token].key == Some(key)
      modifies this`items, this`spent, Shared()
      ensures Valid() && Continues()
      ensures r.Consumed? ==> items == old(items) - {token} && spent == old(spent) + {token}
      ensures r.Consumed? ==> Spends(coordinator.server.run, |old(coordinator.server.run)|, old(items)[token], evidence[token], at, caller)
      ensures !r.Consumed? ==> unchanged(this`items, this`spent)
      ensures coordinator.server.calm && old(coordinator.InStep()) && old(Known(coordinator.server.state, key)) ==>
                && coordinator.InStep() && Known(coordinator.server.state, key)
                && r == (if old(IsCurrent(items[token], coordinator.server.state)) then Consumed else Denied)
                && (r.Denied? ==> coordinator.server.state == old(coordinator.server.state))
                && (r.Consumed? ==> !IsCurrent(old(items)[token], coordinator.server.state))
    {
      hide Tokens, Run, Advances, Before, Spends, Reviewed, Agrees;
      ghost var run := coordinator.server.run;
      assert EvidencedAt(items[token], evidence, token, run);
      var receipt := items[token];
      ghost var answers;
      r, at, answers := ClaimReview(coordinator, key, receipt.epoch.value, receipt.revision.value, caller);
      LongerRun(items, evidence, run, coordinator.server.run);
      if r.Consumed? {
        SpendsReview(run, coordinator.server.run, receipt, evidence, token, at, caller);
        Burn(token);
      }
    }

    /** Consuming a receipt that matches its request.  A receipt without a resource is always good. */
    method ConsumeMatching(token: Token, caller: nat) returns (r: Outcome, ghost at: nat)
      requires Valid() && token in items
      modifies this`items, this`spent, this`localRevisions, this`ends, Shared()
      ensures Valid() && Continues()
      ensures items == old(items) - (if r.Consumed? then {token} else {})
      ensures spent == old(spent) + (if r.Consumed? then {token} else {})
      ensures old(items)[token].key.None? ==> r.Consumed?
      ensures old(items)[token].key.None? || coordinator != null || !r.Consumed? ==> unchanged(this`localRevisions, this`ends)
      ensures old(items)[token].key.Some? && coordinator == null ==>
                && !r.Unserved?
                && (r.Consumed? <==> NotEndedSince(old(ends), evidence[token].endsAt, old(items)[token].key.value))
                && (r.Consumed? ==> SpentLocally(old(items)[token]))
      ensures r.Consumed? && old(items)[token].key.Some? && coordinator != null ==>
                Spends(coordinator.server.run, |old(coordinator.server.run)|, old(items)[token], evidence[token], at, caller)
      ensures old(items)[token].key.Some? && coordinator != null && coordinator.server.calm && old(coordinator.InStep())
              && old(Known(coordinator.server.state, items[token].key.value)) ==>
                && coordinator.InStep() && Known(coordinator.server.state, old(items)[token].key.value)
                && r == (if old(IsCurrent(items[token], coordinator.server.state)) then Consumed else Denied)
                && (r.Denied? ==> coordinator.server.state == old(coordinator.server.state))
                && (r.Consumed? ==> !IsCurrent(old(items)[token], coordinator.server.state))
    {
      hide Valid, Spends, NotEndedSince, Revision, Agrees, IsCurrent, Known;
      at := 0;
      var key := items[token].key;
      if key.None? {
        Burn(token);
        r := Consumed;
      } else if coordinator == null {
        r := ConsumeLocally(token, key.value);
      } else {
        r, at := ConsumeShared(token, key.value, caller);
      }
    }

    /** A local consume: the receipt carried the current revision, and its review and all others of
        the resource are over. */
    twostate predicate SpentLocally(receipt: Receipt)
      reads this
    {
      && receipt.key.Some? && receipt.revision == Some(old(LocalRevision(receipt.key.value)))
      && ends == old(ends) + [receipt.key.value]
      && localRevisions == old(localRevisions)[receipt.key.value := old(LocalRevision(receipt.key.value)) + 1]
    }

    /** Validates before it burns: only a matching, current receipt is removed. */
    method Consume(token: Token, session: string, intent: string, key: Option<Key>, now: int, caller: nat)
      returns (r: Outcome, ghost at: nat)
      requires Valid()
      modifies this, Shared()
      ensures Valid() && Continues() && unchanged(this`evidence, this`nextToken)
      ensures items == Unexpired(old(items), now) - (if r.Consumed? then {token} else {})
      ensures spent == old(spent) + (if r.Consumed? then {token} else {})
      ensures !Presents(old(items), token, session, intent, key, now) ==> r.Denied?
      ensures key.None? ==> (r.Consumed? <==> Presents(old(items), token, session, intent, key, now))
      ensures key.None? || coordinator != null || !r.Consumed? ==> unchanged(this`localRevisions, this`ends)
      ensures key.Some? && coordinator == null ==>
                && !r.Unserved?
                && (r.Consumed? <==> && Presents(old(items), token, session, intent, key, now)
                                     && NotEndedSince(old(ends), evidence[token].endsAt, key.value))
                && (r.Consumed? ==> SpentLocally(old(items)[token]))
      ensures r.Consumed? && key.Some? && coordinator != null ==>
                Spends(coordinator.server.run, |old(coordinator.server.run)|, old(items)[token], evidence[token], at, caller)
      ensures key.Some? && coordinator != null && coordinator.server.calm && old(coordinator.InStep())
              && old(Known(coordinator.server.state, key.value)) ==>
                && coordinator.InStep() && Known(coordinator.server.state, key.value)
                && r == (if Presents(old(items), token, session, intent, key, now)
                            && IsCurrent(old(items)[token], old(coordinator.server.state)) then Consumed else Denied)
                && (r.Denied? ==> coordinator.server.state == old(coordinator.server.state))
                && (r.Consumed? ==> !IsCurrent(old(items)[token], coordinator.server.state))
    {
      hide Valid, Spends, NotEndedSince, Revision, Agrees, IsCurrent, Known;
      at, r := 0, Denied;
      Purge(now);
      if token in items {
        if Matches(items[token], session, intent, key) {
          r, at := ConsumeMatching(token, caller);
        }
      }
    }

    /** Ends every outstanding review of a resource, or raises. */
    method Invalidate(key: Key, caller: nat) returns (done: bool, ghost at: nat, ghost epoch: Epoch, ghost revision: nat)
      requires Valid()
      modifies this, Shared()
      ensures Valid() && Continues()
      ensures unchanged(this`items, this`evidence, this`spent, this`nextToken)
      ensures coordinator == null ==>
                done && ends == old(ends) + [key] && localRevisions == old(localRevisions)[key := old(LocalRevision(key)) + 1]
      ensures coordinator != null ==> unchanged(this`localRevisions, this`ends)
      ensures coordinator != null && done ==>
                |old(coordinator.server.run)| <= at && Advances(coordinator.server.run, at, key, epoch, revision)
      ensures coordinator != null && coordinator.server.calm && old(coordinator.InStep()) ==>
                && done && coordinator.InStep() && Known(coordinator.server.state, key)
                && forall e, r: nat :: old(Alive(coordinator.server.state, key, e, r)) ==> !Alive(coordinator.server.state, key, e, r)
    {
      hide Tokens, Evidenced, Counted, Run, EpochSection, RevisionSection, AdvanceSection, Extends, Agrees;
      done, at, epoch, revision := false, 0, 0, 0;
      if coordinator == null {
        EndLocally(key);
        return true, at, epoch, revision;
      }
      ghost var run := coordinator.server.run;
      var current, epochReplies, epochEntered, seenAt := coordinator.CurrentEpoch();
      LongerRun(items, evidence, run, coordinator.server.run);
      if current.Unavailable? {
        return;
      }
      run := coordinator.server.run;
      var read, replies, revisionEntered, readAt := coordinator.CurrentRevision(key);
      LongerRun(items, evidence, run, coordinator.server.run);
      if read.Unavailable? {
        return;
      }
      run := coordinator.server.run;
      var advanced, result, entered, advancedAt := coordinator.AdvanceIfCurrent(caller, key, read.value, current.value);
      LongerRun(items, evidence, run, coordinator.server.run);
      if advanced != Ok(true) {
        return;
      }
      done, at, epoch, revision := true, advancedAt, current.value, read.value;
    }
  }

  /** A coordinated consume: the reviewed revision was advanced by this caller's own command, issued
      during the call, and nothing had advanced the key since the review. */
  ghost predicate Spends(run: seq<Command>, start: nat, receipt: Receipt, evidence: Evidence, at: nat, caller: nat) {
    && receipt.key.Some? && receipt.epoch.Some? && receipt.revision.Some?
    && start <= at < |run| && evidence.revisionAt <= at
    && Advances(run, at, receipt.key.value, receipt.epoch.value, receipt.revision.value)
    && run[at].caller == caller
    && NoAdvance(run, evidence.revisionAt, at, receipt.key.value)
  }

  lemma {:induction false} SpendsReview(run: seq<Command>, run': seq<Command>, receipt: Receipt, evidence: map<Token, Evidence>,
                                        t: Token, at: nat, caller: nat)
    requires run <= run' && receipt.key.Some? && EvidencedAt(receipt, evidence, t, run)
    requires |run| <= at && Advances(run', at, receipt.key.value, receipt.epoch.value, receipt.revision.value)
    requires run'[at].caller == caller
    ensures Spends(run', |run|, receipt, evidence[t], at, caller)
  {
    hide Before;
    PrefixKeepsBefore(run, run', evidence[t].epochAt);
    PrefixKeepsBefore(run, run', evidence[t].revisionAt);
    ReviewIsUndisturbed(run', evidence[t].epochAt, evidence[t].revisionAt, at, receipt.key.value,
                        receipt.epoch.value, receipt.revision.value);
  }

  lemma {:induction false} SameEvidence(receipt: Receipt, evidence: map<Token, Evidence>, t: Token, proof: Evidence)
    requires t in evidence && evidence[t] == proof
    ensures receipt.key.Some? ==>
              forall run :: EvidencedAt(receipt, map[t := proof], t, run) <==> EvidencedAt(receipt, evidence, t, run)
  {
  }
}
