/** Automated disconnection of an account's sessions: the clean-up after a restriction, and the
    session limit.  A termination is requested only right after a read that shows the very session,
    and under a limit only while that read shows more sessions than allowed. */
module AutomationSessions {
  import opened SessionRouter
  import opened Wrappers

  predicate Agree(left: string, right: string) {
    left == "" || right == "" || left == right
  }

  /** The same session: the same row id, and no field that both rows know differs. */
  predicate Matches(target: Row, r: Row) {
    && target.id == r.id && Agree(target.name, r.name) && Agree(target.session, r.session)
    && Agree(target.source, r.source) && Agree(target.vpn, r.vpn)
  }

  /** What may be taken for the same session: the row id is the same, and account, session id, source
      and VPN address each are the same or missing on one side. */
  ghost predicate MayBeSame(target: Row, r: Row) {
    && target.id == r.id
    && !(target.name != "" && r.name != "" && target.name != r.name)
    && !(target.session != "" && r.session != "" && target.session != r.session)
    && !(target.source != "" && r.source != "" && target.source != r.source)
    && !(target.vpn != "" && r.vpn != "" && target.vpn != r.vpn)
  }

  ghost predicate AnyMatch(target: Row, rows: seq<Row>) {
    exists i | 0 <= i < |rows| :: MayBeSame(target, rows[i])
  }

  datatype Counts = Counts(attempted: nat, verified: nat, failed: nat, unknown: nat, stale: nat)

  /** The rows of the account beyond the limit; without a limit, all of them. */
  function Excess(rows: seq<Row>, username: string, limit: Option<nat>): seq<Row> {
    var matching := Named(rows, username);
    if limit.None? then matching else if limit.value <= |matching| then matching[limit.value..] else []
  }

  /** What the read right before a termination must show. */
  ghost predicate Justified(rows: seq<Row>, username: string, target: Row, limit: Option<nat>, id: string) {
    && id == target.id
    && AnyMatch(target, Named(rows, username))
    && AnyMatch(target, Excess(rows, username, limit))
  }

  ghost predicate JustifiedAt(log: seq<Event>, start: nat, i: nat, username: string, targets: seq<Row>, limit: Option<nat>)
    requires i < |log| && log[i].Terminate?
  {
    && i > start && log[i - 1].Read?
    && exists t :: t in targets && Justified(log[i - 1].rows, username, t, limit, log[i].id)
  }

  ghost predicate AllJustified(log: seq<Event>, start: nat, username: string, targets: seq<Row>, limit: Option<nat>) {
    forall i | start <= i < |log| && log[i].Terminate? :: JustifiedAt(log, start, i, username, targets, limit)
  }

  function Terminations(log: seq<Event>): nat {
    if log == [] then 0
    else Terminations(log[..|log| - 1]) + if log[|log| - 1].Terminate? then 1 else 0
  }

  lemma {:induction false} OneEvent(log: seq<Event>, start: nat, username: string, targets: seq<Row>, limit: Option<nat>, e: Event)
    requires AllJustified(log, start, username, targets, limit)
    requires e.Terminate? ==> start < |log| && log[|log| - 1].Read?
    requires e.Terminate? ==> exists t :: t in targets && Justified(log[|log| - 1].rows, username, t, limit, e.id)
    ensures AllJustified(log + [e], start, username, targets, limit)
    ensures Terminations(log + [e]) == Terminations(log) + if e.Terminate? then 1 else 0
  {
    hide Justified;
    var log' := log + [e];
    assert log'[..|log'| - 1] == log;
    forall i | start <= i < |log'| && log'[i].Terminate?
      ensures JustifiedAt(log', start, i, username, targets, limit)
    {
      if i < |log| {
        assert JustifiedAt(log, start, i, username, targets, limit);
      }
    }
  }

  /** A listed row of the account that is one too many: at least as many of its rows as the limit
      allows come earlier in the listing. */
  ghost predicate Surplus(rows: seq<Row>, username: string, limit: nat, id: string) {
    exists p :: 0 <= p < |rows| && rows[p].name == username && rows[p].id == id && EarlierRows(rows, username, p) >= limit
  }

  /** With a limit, a justified termination is one of a surplus row, so the account is over it. */
  lemma {:induction false} OnlyTheSurplus(rows: seq<Row>, username: string, target: Row, limit: nat, id: string)
    requires Justified(rows, username, target, Some(limit), id)
    ensures Surplus(rows, username, limit, id) && |Named(rows, username)| > limit
  {
    var excess := Excess(rows, username, Some(limit));
    var i :| 0 <= i < |excess| && MayBeSame(target, excess[i]);
    assert rows[..|rows|] == rows;
    assert excess[i] == Named(rows, username)[limit + i];
    var p := NamedPosition(rows, username, |rows|, limit + i);
  }

  method FindMatch(target: Row, rows: seq<Row>) returns (found: bool)
    ensures found <==> AnyMatch(target, rows)
  {
    found := false;
    for i := 0 to |rows|
      invariant !found
      invariant forall j | 0 <= j < i :: !MayBeSame(target, rows[j])
    {
      if Matches(target, rows[i]) {
        return true;
      }
    }
  }

  /** One target: read, decide, terminate, read back. */
  method TerminateOne(router: Router, username: string, ghost targets: seq<Row>, target: Row, limit: Option<nat>,
                      counts: Counts, ghost start: nat)
    returns (after: Counts, lost: bool)
    requires target in targets && start <= |router.log| && AllJustified(router.log, start, username, targets, limit)
    modifies router
    ensures old(router.log) <= router.log && AllJustified(router.log, start, username, targets, limit)
    ensures Terminations(router.log) - after.attempted + (if lost then 1 else 0)
            == Terminations(old(router.log)) - counts.attempted
    ensures !lost ==> after.verified + after.failed + after.unknown + after.stale
                      == counts.verified + counts.failed + counts.unknown + counts.stale + 1
    ensures !lost ==> after.attempted - counts.attempted >= after.verified + after.failed - counts.verified - counts.failed
    ensures !lost && after.verified > counts.verified ==>
              |router.log| > 0 && router.log[|router.log| - 1].Read? && !AnyMatch(target, Named(router.log[|router.log| - 1].rows, username))
    ensures !lost && after.failed > counts.failed ==>
              |router.log| > 0 && router.log[|router.log| - 1].Read? && AnyMatch(target, Named(router.log[|router.log| - 1].rows, username))
    ensures !lost ==> after.verified >= counts.verified && after.failed >= counts.failed
    ensures !lost && after.stale > counts.stale ==>
              |router.log| == |old(router.log)| + 1 && router.log[|old(router.log)|].Read?
              && !Justified(router.log[|old(router.log)|].rows, username, target, limit, target.id)
    ensures lost ==> after.unknown == counts.unknown
    ensures !lost && after.unknown > counts.unknown ==> |router.log| > |old(router.log)| && router.log[|router.log| - 1] == ReadFailed
  {
    hide JustifiedAt, AnyMatch, Terminations;
    lost := false;
    ghost var l0 := router.log;
    var current := router.ListSessions();
    OneEvent(l0, start, username, targets, limit, router.log[|l0|]);
    if current.None? {
      return counts.(unknown := counts.unknown + 1), false;
    }
    var matching := Named(current.value, username);
    var exact := FindMatch(target, matching);
    if !exact {
      return counts.(stale := counts.stale + 1), false;
    }
    var excess := FindMatch(target, Excess(current.value, username, limit));
    if !excess {
      return counts.(stale := counts.stale + 1), false;
    }
    after := counts.(attempted := counts.attempted + 1);
    var owned: bool := *;
    if !owned {
      return after, true;
    }
    ghost var l1 := router.log;
    var _ := router.TerminateSession(target.id);
    OneEvent(l1, start, username, targets, limit, Terminate(target.id));
    ghost var l2 := router.log;
    var readback := router.ListSessions();
    OneEvent(l2, start, username, targets, limit, router.log[|l2|]);
    if readback.None? {
      return after.(unknown := after.unknown + 1), false;
    }
    var active := FindMatch(target, Named(readback.value, username));
    after := if active then after.(failed := after.failed + 1) else after.(verified := after.verified + 1);
  }

  /** Every target is classified exactly once, unless coordination is lost, and every termination
      is justified by the read before it. */
  method TerminateSessions(router: Router, username: string, targets: seq<Row>, limit: Option<nat>)
    returns (counts: Counts, lost: bool)
    modifies router
    ensures old(router.log) <= router.log && AllJustified(router.log, |old(router.log)|, username, targets, limit)
    ensures !lost ==> counts.verified + counts.failed + counts.unknown + counts.stale == |targets|
    ensures !lost ==> Terminations(router.log) == Terminations(old(router.log)) + counts.attempted
    ensures !lost ==> counts.verified + counts.failed <= counts.attempted
    ensures counts.unknown > 0 ==> ReadFailed in router.log[|old(router.log)|..]
    ensures lost ==> targets != []
  {
    hide Justified, JustifiedAt, AnyMatch, Terminations, Matches, Excess;
    ghost var start := |router.log|;
    counts, lost := Counts(0, 0, 0, 0, 0), false;
    ghost var l0 := router.log;
    var snapshot := router.ListSessions();
    OneEvent(l0, start, username, targets, limit, router.log[|l0|]);
    if snapshot.None? {
      counts := counts.(unknown := |targets|);
      assert router.log[start..][0] == ReadFailed;
      return;
    }
    for i := 0 to |targets|
      invariant old(router.log) <= router.log && AllJustified(router.log, start, username, targets, limit)
      invariant counts.verified + counts.failed + counts.unknown + counts.stale == i
      invariant Terminations(router.log) == Terminations(l0) + counts.attempted
      invariant counts.verified + counts.failed <= counts.attempted
      invariant counts.unknown > 0 ==> ReadFailed in router.log[start..]
    {
      ghost var unknown, before := counts.unknown, router.log;
      counts, lost := TerminateOne(router, username, targets, targets[i], limit, counts, start);
      assert before[start..] <= router.log[start..];
      if lost {
        return;
      }
      if counts.unknown > unknown {
        assert router.log[start..][|router.log| - 1 - start] == ReadFailed;
      }
    }
  }

  /** The session limit: nothing is terminated unless the account is unchanged and a read shows it
      over its limit, and each termination is of a surplus row of the read right before it. */
  method EnforceLimit(router: Router, username: string, limit: int, isFresh: bool) returns (counts: Counts, lost: bool)
    modifies router
    ensures old(router.log) <= router.log
    ensures forall i | |old(router.log)| <= i < |router.log| && router.log[i].Terminate? ::
              i > 0 && router.log[i - 1].Read? && limit > 0 && |Named(router.log[i - 1].rows, username)| > limit
              && Surplus(router.log[i - 1].rows, username, limit, router.log[i].id)
    ensures !isFresh ==> router.log == old(router.log)
    ensures isFresh ==>
              && |router.log| > |old(router.log)| && !router.log[|old(router.log)|].Terminate?
              && var read := router.log[|old(router.log)|];
                 if read.Read? && limit > 0 && |Named(read.rows, username)| > limit
                 then lost || counts.verified + counts.failed + counts.unknown + counts.stale == |Named(read.rows, username)| - limit
                 else !lost && |router.log| == |old(router.log)| + 1 && counts == Counts(0, 0, 0, 0, 0)
  {
    hide AllJustified, Surplus, Named, Excess, Terminations;
    counts, lost := Counts(0, 0, 0, 0, 0), false;
    if !isFresh {
      return;
    }
    var current := router.ListSessions();
    if current.None? {
      return;
    }
    var matching := Named(current.value, username);
    if limit <= 0 || |matching| <= limit {
      return;
    }
    var owned: bool := *;
    if !owned {
      return counts, true;
    }
    ghost var start := |router.log|;
    var targets := matching[limit..];
    counts, lost := TerminateSessions(router, username, targets, Some(limit));
    SurplusOnly(router.log, start, username, targets, limit);
  }

  lemma {:induction false} SurplusOnly(log: seq<Event>, start: nat, username: string, targets: seq<Row>, limit: nat)
    requires AllJustified(log, start, username, targets, Some(limit))
    ensures forall i | start <= i < |log| && log[i].Terminate? ::
              i > 0 && log[i - 1].Read? && |Named(log[i - 1].rows, username)| > limit && Surplus(log[i - 1].rows, username, limit, log[i].id)
  {
    hide Justified, Surplus;
    forall i | start <= i < |log| && log[i].Terminate?
      ensures i > 0 && log[i - 1].Read? && |Named(log[i - 1].rows, username)| > limit && Surplus(log[i - 1].rows, username, limit, log[i].id)
    {
      assert JustifiedAt(log, start, i, username, targets, Some(limit));
      var t :| t in targets && Justified(log[i - 1].rows, username, t, Some(limit), log[i].id);
      OnlyTheSurplus(log[i - 1].rows, username, t, limit, log[i].id);
    }
  }
}
