/** Automated access enforcement of one account against an unreliable router.

    The router row can change at any time behind the dashboard's back, every read may fail, every
    write may or may not commit whatever its response says, and the process may stop after any
    effect.  Passes and operator edits of one account exclude each other, as they run under the
    account's mutation lock.  Whatever happens, the log stays acceptable to AutomationLog.
 */
module Automation {
  import opened AutomationLog
  import opened Wrappers

  /** The stable fields of the account's router row; the id is fixed. */
  datatype Row = Row(name: string, profile: string, comment: string, disabled: bool)

  datatype ReadBack = Verified | Mismatch | Stale | Unknown

  predicate IsDisabled(row: Option<Row>) {
    row.Some? && row.value.disabled
  }

  /** What the control says at a given time; expiry comes first, then quota, then schedule. */
  function Evaluate(expiresAt: int, now: int, quotaReached: bool, scheduleAllows: bool): Option<Reason> {
    if expiresAt != 0 && expiresAt <= now then Some(Expired)
    else if quotaReached then Some(Quota)
    else if !scheduleAllows then Some(Schedule)
    else None
  }

  datatype Plan = Leave | Restore | Restrict(reason: Reason)

  /** A recorded expiry intent is carried out even if the control no longer says so. */
  function Decide(recorded: Recorded, state: Option<Reason>): Plan {
    if state.Some? then Restrict(state.value)
    else match recorded
         case Clear => Leave
         case Settled(reason) => if reason == Expired then Leave else Restore
         case Pending(reason) => if reason == Expired then Restrict(Expired) else Restore
  }

  /** When each plan is made: an expiry that is due comes first, then the quota, then the schedule;
      without any of them a recorded quota or schedule restriction is lifted. */
  lemma {:induction false} PlanOf(recorded: Recorded, expiresAt: int, now: int, quotaReached: bool, scheduleAllows: bool)
    ensures var plan, due := Decide(recorded, Evaluate(expiresAt, now, quotaReached, scheduleAllows)), Due(expiresAt, now);
            && (plan == Restrict(Expired) <==> due || (recorded == Pending(Expired) && !quotaReached && scheduleAllows))
            && (plan == Restrict(Quota) <==> !due && quotaReached)
            && (plan == Restrict(Schedule) <==> !due && !quotaReached && !scheduleAllows)
            && (plan == Restore <==> !due && !quotaReached && scheduleAllows
                                     && recorded in {Pending(Quota), Pending(Schedule), Settled(Quota), Settled(Schedule)})
            && (plan == Leave <==> !due && !quotaReached && scheduleAllows && recorded in {Clear, Settled(Expired)})
  {
  }

  predicate Due(expiresAt: int, now: int) {
    expiresAt != 0 && now >= expiresAt
  }

  /** An intent or a reason that a pass records, or a write, has its occasion in the signals. */
  predicate Justified(e: Event, due: bool, quotaReached: bool, scheduleAllows: bool, recorded: Recorded) {
    && (e.AutoPersist? && !e.recorded.Clear? ==>
          match e.recorded.reason {
            case Expired => due || recorded == Pending(Expired)
            case Quota => quotaReached && !due
            case Schedule => !scheduleAllows && !quotaReached && !due
          })
    && (e == AutoWrite(true) ==> due || quotaReached || !scheduleAllows || recorded == Pending(Expired))
    && (e == AutoWrite(false) ==> !due && !quotaReached && scheduleAllows && !recorded.Clear? && recorded.reason != Expired)
  }

  /** What a restriction for a reason, or a restoration, may add to the log. */
  predicate Suits(e: Event, reason: Option<Reason>) {
    && (e.AutoPersist? && !e.recorded.Clear? ==> reason == Some(e.recorded.reason))
    && (e.AutoWrite? ==> e.disabled == reason.Some?)
    && e != SuspendVerified && e != OperatorClear
  }

  /** Only reads, checkpoints and outside changes. */
  ghost predicate Observes(log: seq<Event>, start: nat) {
    forall k | start <= k < |log| :: log[k].AutoRead? || log[k] == AutoCheckpoint || log[k] == EnabledByOthers
  }

  lemma {:induction false} ObservedSuits(log: seq<Event>, start: nat, log': seq<Event>, reason: Option<Reason>)
    requires AllSuit(log, start, reason) && log <= log' && Observes(log', |log|)
    ensures AllSuit(log', start, reason)
  {
  }

  lemma {:induction false} OneMoreSuits(log: seq<Event>, start: nat, log': seq<Event>, e: Event, reason: Option<Reason>)
    requires AllSuit(log, start, reason) && (log' == log || log' == log + [e]) && Suits(e, reason)
    ensures AllSuit(log', start, reason)
  {
  }

  lemma {:induction false} MoreSuit(log: seq<Event>, start: nat, log': seq<Event>, reason: Option<Reason>)
    requires AllSuit(log, start, reason) && log <= log' && AllSuit(log', |log|, reason)
    ensures AllSuit(log', start, reason)
  {
  }

  lemma {:induction false} EndsWithThree(log: seq<Event>, a: Event, b: Event, c: Event)
    ensures EndsWith(log, [a, b]) ==> EndsWith(log + [c], [a, b, c])
  {
    if EndsWith(log, [a, b]) {
      var log' := log + [c];
      assert log'[|log'| - 3..] == log[|log| - 2..] + [c];
    }
  }

  lemma {:induction false} NothingNew(log: seq<Event>, reason: Option<Reason>)
    ensures AllSuit(log, |log|, reason)
  {
  }

  ghost predicate AllSuit(log: seq<Event>, start: nat, reason: Option<Reason>) {
    forall k | start <= k < |log| :: Suits(log[k], reason)
  }

  /** The last events of the log. */
  ghost predicate EndsWith(log: seq<Event>, events: seq<Event>) {
    |log| >= |events| && log[|log| - |events|..] == events
  }

  /** The monitor's view agrees with the stored state, the control and the router. */
  predicate Consistent(row: Option<Row>, recorded: Recorded, expiresAt: int, clock: int, m: Monitor) {
    && m.recorded == recorded
    && (m.suspended ==> IsDisabled(row) && recorded.Clear?)
    && (m.verified ==> IsDisabled(row))
    && (m.expired ==> expiresAt != 0 && expiresAt <= clock)
    && (!recorded.Clear? && recorded.reason == Expired ==> m.expired)
    && (Restorable(recorded) ==> m.owned)
  }

  class Account {
    var row: Option<Row>
    var recorded: Recorded
    var expiresAt: int

    /** In a calm account nothing fails and nobody else changes the row. */
    const calm: bool

    ghost var clock: int
    ghost var mon: Monitor
    ghost var log: seq<Event>

    ghost predicate Valid()
      reads this
    {
      Legal(log) && mon == Replay(log) && Consistent(row, recorded, expiresAt, clock, mon)
    }

    /** The log only grows. */
    twostate predicate Extends()
      reads this`log
    {
      old(log) <= log
    }

    constructor (row: Option<Row>, expiresAt: int, now: int, calm: bool)
      ensures Valid() && log == [] && this.row == row && recorded == Clear && this.expiresAt == expiresAt && this.calm == calm
    {
      this.row, recorded, this.expiresAt, this.calm := row, Clear, expiresAt, calm;
      clock, mon, log := now, FRESH, [];
    }

    ghost method Emit(e: Event)
      requires Legal(log) && mon == Replay(log) && Permitted(mon, e)
      modifies this`log, this`mon
      ensures Legal(log) && mon == Replay(log) && mon == Watch(old(mon), e) && log == old(log) + [e]
    {
      hide Legal, Permitted, Replay, Watch;
      LegalOne(log, e);
      mon := Watch(mon, e);
      log := log + [e];
    }

    method Fails() returns (fails: bool)
      ensures calm ==> !fails
    {
      fails := *;
      if calm {
        fails := false;
      }
    }

    /** Anybody may change the row between two requests of this process. */
    method Others()
      requires Valid()
      modifies this`row, this`log, this`mon
      ensures Valid() && Extends()
      ensures mon == old(mon) || mon == Watch(old(mon), EnabledByOthers)
      ensures log == old(log) + if row != old(row) && !IsDisabled(row) then [EnabledByOthers] else []
      ensures calm ==> unchanged(this)
    {
      hide Legal, Replay;
      if !calm {
        var now: Option<Row> := *;
        Replace(now);
      }
    }

    /** The row becomes another one; it is an event only if that changes it to one that is not disabled. */
    method Replace(now: Option<Row>)
      requires Valid()
      modifies this`row, this`log, this`mon
      ensures Valid() && Extends() && row == now
      ensures mon == old(mon) || mon == Watch(old(mon), EnabledByOthers)
      ensures log == old(log) + if row != old(row) && !IsDisabled(row) then [EnabledByOthers] else []
    {
      hide Legal, Replay;
      var changed := now != row;
      row := now;
      if changed && !IsDisabled(row) {
        Emit(EnabledByOthers);
      }
    }

    /** Rereads the account; it is fresh only if it is the expected one, unchanged. */
    method FreshUser(expected: Row) returns (isFresh: bool)
      requires Valid()
      modifies this`row, this`log, this`mon
      ensures Valid() && Extends()
      ensures isFresh ==> row == Some(expected) && mon.view == Seen(expected.disabled)
      ensures SameButSeen(old(mon), mon) && Observes(log, |old(log)|)
      ensures calm ==> row == old(row) && (isFresh <==> row == Some(expected))
    {
      hide Legal, Replay;
      Others();
      var failed := Fails();
      if failed {
        return false;
      }
      isFresh := row == Some(expected);
      if row.Some? {
        Emit(AutoRead(if isFresh then Seen(expected.disabled) else Changed));
      }
    }

    method ReadBackUser(expected: Row, disabled: bool) returns (result: ReadBack)
      requires Valid()
      modifies this`row, this`log, this`mon
      ensures Valid() && Extends()
      ensures result == Verified ==> row.Some? && row.value.disabled == disabled && mon.view == Seen(disabled)
      ensures result == Mismatch ==> mon.view == Seen(!disabled)
      ensures result == Stale ==> mon.view == Changed
      ensures SameButSeen(old(mon), mon) && Observes(log, |old(log)|)
      ensures calm ==> row == old(row)
      ensures calm && row.Some? && row.value.name == expected.name ==>
                (result == if row.value.disabled == disabled then Verified else Mismatch)
                && log == old(log) + [AutoRead(Seen(row.value.disabled))]
    {
      hide Legal, Replay;
      Others();
      var failed := Fails();
      if failed || row.None? {
        return Unknown;
      }
      if row.value.name != expected.name {
        Emit(AutoRead(Changed));
        return Stale;
      }
      Emit(AutoRead(Seen(row.value.disabled)));
      result := if row.value.disabled == disabled then Verified else Mismatch;
    }

    /** Stores the enforcement state; the store may refuse, or the process stop afterwards. */
    method Persist(r: Recorded) returns (ok: bool)
      requires Valid() && Permitted(mon, AutoPersist(r))
      requires r.Settled? ==> Restorable(r) ==> mon.owned
      requires !r.Clear? && r.reason == Expired ==> expiresAt != 0 && expiresAt <= clock
      requires mon.suspended ==> r.Clear?
      modifies this`recorded, this`log, this`mon
      ensures Valid() && Extends()
      ensures ok ==> recorded == r && mon == Watch(old(mon), AutoPersist(r))
      ensures calm ==> ok
      ensures (ok && log == old(log) + [AutoPersist(r)]) || (!ok && (log == old(log) || log == old(log) + [AutoPersist(r)]))
    {
      hide Legal, Replay;
      var refused := Fails();
      if refused {
        return false;
      }
      recorded := r;
      Emit(AutoPersist(r));
      var stopped := Fails();
      ok := !stopped;
    }

    /** A write request: it may fail before, or commit with the response lost. */
    method UpdateUser(disabled: bool)
      requires Valid()
      requires if disabled then recorded.Pending? else Restorable(recorded) && !mon.expired && !mon.suspended
      requires mon.checkpointed && mon.view == Seen(!disabled)
      modifies this`row, this`log, this`mon
      ensures Valid() && Extends()
      ensures mon == Watch(old(mon), AutoWrite(disabled)) || mon == Watch(Watch(old(mon), EnabledByOthers), AutoWrite(disabled))
      ensures log == old(log) + [AutoWrite(disabled)] || log == old(log) + [EnabledByOthers, AutoWrite(disabled)]
      ensures calm && old(row).Some? ==> row == Some(old(row).value.(disabled := disabled)) && log == old(log) + [AutoWrite(disabled)]
    {
      hide Legal, Replay;
      Others();
      Emit(AutoWrite(disabled));
      var lost := Fails();
      if !lost && row.Some? {
        row := Some(row.value.(disabled := disabled));
      }
    }

    /** The configuration export that precedes a change. */
    method Checkpoint() returns (ok: bool)
      requires Valid() && mon.view.Seen?
      modifies this`log, this`mon
      ensures Valid() && Extends()
      ensures ok ==> mon == Watch(old(mon), AutoCheckpoint) && log == old(log) + [AutoCheckpoint]
      ensures !ok ==> mon == old(mon) && log == old(log)
      ensures calm ==> ok
    {
      hide Legal, Replay;
      var failed := Fails();
      ok := !failed;
      if ok {
        Emit(AutoCheckpoint);
      }
    }

    /** The export, and another look at the account. */
    method CheckpointAndReread(user: Row) returns (isFresh: bool)
      requires Valid() && mon.view.Seen?
      modifies this`row, this`log, this`mon
      ensures Valid() && Extends() && Observes(log, |old(log)|)
      ensures mon.recorded == old(mon).recorded && mon.owned == old(mon).owned && mon.expired == old(mon).expired
      ensures mon.suspended ==> old(mon).suspended
      ensures isFresh ==> row == Some(user) && mon.checkpointed && mon.view == Seen(user.disabled)
      ensures calm ==> row == old(row) && (isFresh <==> row == Some(user))
    {
      hide Legal, Replay;
      var exported := Checkpoint();
      if !exported {
        return false;
      }
      isFresh := FreshUser(user);
    }

    /** The write and its read-back. */
    method WriteAndReadBack(user: Row, disabled: bool, ghost reason: Option<Reason>) returns (result: ReadBack)
      requires Valid() && reason.Some? == disabled
      requires if disabled then recorded.Pending? else Restorable(recorded) && !mon.expired && !mon.suspended
      requires mon.checkpointed && mon.view == Seen(!disabled)
      modifies this`row, this`log, this`mon
      ensures Valid() && Extends() && AllSuit(log, |old(log)|, reason)
      ensures mon.recorded == old(mon).recorded && mon.owned == old(mon).owned && mon.expired == old(mon).expired
      ensures mon.suspended ==> old(mon).suspended
      ensures result == Verified ==> mon.view == Seen(disabled)
      ensures result == Mismatch ==> mon.view == Seen(!disabled)
      ensures result == Stale ==> mon.view == Changed
      ensures calm && old(row).Some? && old(row).value.name == user.name ==>
                && result == Verified && row == Some(old(row).value.(disabled := disabled))
                && EndsWith(log, [AutoWrite(disabled), AutoRead(Seen(disabled))])
    {
      hide Legal, Replay, Observes;
      UpdateUser(disabled);
      ghost var written := log;
      result := ReadBackUser(user, disabled);
      ObservedSuits(written, |old(log)|, log, reason);
    }

    /** Lifts a quota or schedule restriction. */
    method RestoreAccess(user: Row)
      requires Valid() && Restorable(recorded) && !mon.expired
      modifies this`row, this`recorded, this`log, this`mon
      ensures Valid() && Extends() && AllSuit(log, |old(log)|, None)
      ensures calm && old(row) == Some(user) && user.disabled ==>
                recorded == Clear && row == Some(user.(disabled := false))
                && EndsWith(log, [AutoWrite(false), AutoRead(Seen(false)), AutoPersist(Clear)])
      ensures calm && old(row) == Some(user) && !user.disabled ==>
                row == old(row) && recorded == if old(recorded).Pending? then Clear else old(recorded)
    {
      hide Legal, Replay, AllSuit, Observes, EndsWith;
      ghost var start, before := |log|, log;
      NothingNew(log, None);
      var isFresh := FreshUser(user);
      ObservedSuits(before, start, log, None);
      before := log;
      if recorded.Pending? && isFresh && !user.disabled {
        var _ := Persist(Clear);
        OneMoreSuits(before, start, log, AutoPersist(Clear), None);
        return;
      }
      if !isFresh || !user.disabled {
        return;
      }
      isFresh := CheckpointAndReread(user);
      ObservedSuits(before, start, log, None);
      if !isFresh {
        return;
      }
      var uncoordinated := Fails();
      if uncoordinated {
        return;
      }
      before := log;
      var result := WriteAndReadBack(user, false, None);
      MoreSuit(before, start, log, None);
      if result == Verified {
        before := log;
        var stored := Persist(Clear);
        OneMoreSuits(before, start, log, AutoPersist(Clear), None);
        if stored {
          EndsWithThree(before, AutoWrite(false), AutoRead(Seen(false)), AutoPersist(Clear));
        }
      }
    }

    /** Persists the intent, disables the account and reads it back; only a verified result goes on. */
    method DisableAccess(user: Row, reason: Reason) returns (ok: bool)
      requires Valid() && !user.disabled && mon.view == Seen(false) && (mon.expired ==> reason == Expired)
      requires reason == Expired ==> expiresAt != 0 && expiresAt <= clock
      modifies this`row, this`recorded, this`log, this`mon
      ensures Valid() && Extends()
      ensures ok ==> mon.view == Seen(true) && !mon.suspended && (Restorable(Settled(reason)) ==> mon.owned)
      ensures AllSuit(log, |old(log)|, Some(reason))
      ensures calm && old(row) == Some(user) ==>
                ok && row == Some(user.(disabled := true)) && EndsWith(log, [AutoWrite(true), AutoRead(Seen(true))])
    {
      hide Legal, Replay, AllSuit, Observes;
      ok := false;
      ghost var start, before := |log|, log;
      NothingNew(log, Some(reason));
      var isFresh := CheckpointAndReread(user);
      ObservedSuits(before, start, log, Some(reason));
      if !isFresh {
        return;
      }
      before := log;
      var stored := Persist(Pending(reason));
      OneMoreSuits(before, start, log, AutoPersist(Pending(reason)), Some(reason));
      var uncoordinated := Fails();
      if !stored || uncoordinated {
        return;
      }
      before := log;
      var result := WriteAndReadBack(user, true, Some(reason));
      MoreSuit(before, start, log, Some(reason));
      if result == Verified {
        ok := true;
      } else if result != Unknown {
        before := log;
        var _ := Persist(Clear);
        OneMoreSuits(before, start, log, AutoPersist(Clear), Some(reason));
      }
    }

    /** Restricts the account for a reason, unless an operator disabled it. */
    method RestrictAccess(user: Row, reason: Reason)
      requires Valid() && (mon.expired ==> reason == Expired)
      requires reason == Expired ==> expiresAt != 0 && expiresAt <= clock
      modifies this`row, this`recorded, this`log, this`mon
      ensures Valid() && Extends()
      ensures old(recorded).Clear? && user.disabled ==> recorded.Clear?
      ensures AllSuit(log, |old(log)|, Some(reason))
      ensures calm && old(row) == Some(user) && !(old(recorded).Clear? && user.disabled) ==>
                recorded == Settled(reason) && row == Some(user.(disabled := true))
      ensures calm && old(row) == Some(user) && !user.disabled ==>
                EndsWith(log, [AutoWrite(true), AutoRead(Seen(true)), AutoPersist(Settled(reason))])
      ensures calm && old(recorded).Clear? && user.disabled ==> row == old(row)
    {
      hide Legal, Replay;
      var previous := if recorded.Clear? then None else Some(recorded.reason);
      if user.disabled && previous.None? {
        return;
      }
      var isFresh := FreshUser(user);
      if !isFresh || (user.disabled && previous.None?) {
        return;
      }
      var unlisted := Fails();
      var hasSessions: bool := *;
      if unlisted {
        return;
      }
      if user.disabled && previous == Some(reason) && !hasSessions {
        if recorded.Pending? {
          var _ := Persist(Settled(reason));
        }
        return;
      }
      if !user.disabled {
        var disabled := DisableAccess(user, reason);
        if !disabled {
          return;
        }
      }
      var _ := Persist(Settled(reason));
    }

    /** One pass of the worker, from any snapshot of the account; the policy is evaluated from the
        control read under the lock. */
    method Apply(user: Row, now: int, quotaReached: bool, scheduleAllows: bool)
      requires Valid() && now >= clock
      modifies this
      ensures Valid() && Extends() && clock == now && expiresAt == old(expiresAt)
      // What is recorded has its reason, and each write its occasion.
      ensures forall k | |old(log)| <= k < |log| :: Justified(log[k], Due(expiresAt, now), quotaReached, scheduleAllows, old(recorded))
      // No signal and nothing to lift: nothing is read, recorded or written.
      ensures !Due(expiresAt, now) && !quotaReached && scheduleAllows && old(recorded) in {Clear, Settled(Expired)} ==>
                log == old(log) + [AutoBegin] && row == old(row) && recorded == old(recorded)
      // A signal restricts the account, unless an operator disabled it.
      ensures calm && old(row) == Some(user) && (Due(expiresAt, now) || quotaReached || !scheduleAllows) ==>
                if user.disabled && old(recorded) == Clear then row == old(row) && recorded == Clear
                else row == Some(user.(disabled := true))
                     && recorded == Settled(if Due(expiresAt, now) then Expired else if quotaReached then Quota else Schedule)
      ensures calm && old(row) == Some(user) && (Due(expiresAt, now) || quotaReached || !scheduleAllows) && !user.disabled ==>
                EndsWith(log, [AutoWrite(true), AutoRead(Seen(true)), AutoPersist(recorded)])
      // Without one, a quota or schedule restriction is lifted.
      ensures calm && old(row) == Some(user) && !Due(expiresAt, now) && !quotaReached && scheduleAllows
              && old(recorded) in {Pending(Quota), Pending(Schedule), Settled(Quota), Settled(Schedule)} && user.disabled ==>
                row == Some(user.(disabled := false)) && recorded == Clear
                && EndsWith(log, [AutoWrite(false), AutoRead(Seen(false)), AutoPersist(Clear)])
      ensures calm && old(row) == Some(user) && !Due(expiresAt, now) && !quotaReached && scheduleAllows
              && old(recorded) in {Pending(Quota), Pending(Schedule)} && !user.disabled ==>
                row == old(row) && recorded == Clear
    {
      hide Legal, Replay, Evaluate, Decide, EndsWith;
      clock := now;
      PlanOf(recorded, expiresAt, now, quotaReached, scheduleAllows);
      Emit(AutoBegin);
      match Decide(recorded, Evaluate(expiresAt, now, quotaReached, scheduleAllows)) {
        case Leave =>
        case Restore => RestoreAccess(user);
        case Restrict(reason) => RestrictAccess(user, reason);
      }
    }

    /** An operator suspends or restores the account: write, read back, clear the recorded state.
        Nothing of automation comes between the read-back and the clearing. */
    method SetAccess(suspended: bool) returns (verified: bool, ghost readAt: nat)
      requires Valid()
      modifies this
      ensures Valid() && Extends() && clock == old(clock) && expiresAt == old(expiresAt)
      ensures verified ==> recorded == Clear && !mon.expired && |log| > 0 && log[|log| - 1] == OperatorClear
      ensures calm && old(row).Some? ==> verified && row.Some? && row.value.disabled == suspended
      ensures verified && suspended ==>
                |old(log)| <= readAt < |log| - 1 && log[readAt] == SuspendVerified
                && forall k | readAt < k < |log| - 1 :: log[k] == EnabledByOthers
    {
      hide Legal, Replay;
      verified := OperatorWrite(suspended);
      readAt := if |log| > 0 then |log| - 1 else 0;
      if verified {
        ghost var readBack := log;
        var requests: int := *;
        while requests > 0
          invariant Valid() && readBack <= log && clock == old(clock) && expiresAt == old(expiresAt)
          invariant calm ==> row.Some? && row.value.disabled == suspended
          invariant suspended ==> forall k | readAt < k < |log| :: log[k] == EnabledByOthers
        {
          Others();
          requests := requests - 1;
        }
        verified := ClearRecord();
      }
    }

    /** Clears the recorded state, unless the account's lock turns out to be lost. */
    method ClearRecord() returns (cleared: bool)
      requires Valid()
      modifies this`recorded, this`log, this`mon
      ensures Valid() && Extends()
      ensures cleared ==> recorded == Clear && !mon.expired && log == old(log) + [OperatorClear]
      ensures !cleared ==> unchanged(this)
      ensures calm ==> cleared
    {
      hide Legal, Replay;
      var failed := Fails();
      cleared := !failed;
      if cleared {
        recorded := Clear;
        Emit(OperatorClear);
      }
    }

    /** Suspending several accounts at once skips those that were found suspended. */
    method BulkSuspend(alreadySuspended: bool) returns (verified: bool, ghost readAt: nat)
      requires Valid()
      modifies this
      ensures Valid() && Extends() && clock == old(clock) && expiresAt == old(expiresAt)
      ensures alreadySuspended ==> !verified && unchanged(this)
      ensures calm && old(row).Some? && !alreadySuspended ==> verified && row.Some? && row.value.disabled
      ensures verified ==>
                && recorded == Clear && |old(log)| <= readAt < |log| - 1
                && log[readAt] == SuspendVerified && log[|log| - 1] == OperatorClear
                && forall k | readAt < k < |log| - 1 :: log[k] == EnabledByOthers
    {
      verified, readAt := false, 0;
      if !alreadySuspended {
        verified, readAt := SetAccess(true);
      }
    }

    /** Writes the profile and reads it back. */
    method WriteProfile(profile: string) returns (verified: bool)
      requires Valid()
      modifies this`row, this`log, this`mon
      ensures Valid() && Extends()
      ensures verified ==> row.Some? && row.value.profile == profile
      ensures calm && old(row).Some? ==> verified && row == Some(old(row).value.(profile := profile))
      ensures forall k | |old(log)| <= k < |log| :: log[k] == EnabledByOthers
    {
      hide Legal, Replay, Consistent, Watch;
      Others();
      var lost := Fails();
      if !lost && row.Some? {
        Replace(Some(row.value.(profile := profile)));
      }
      Others();
      var failed := Fails();
      verified := !failed && row.Some? && row.value.profile == profile;
    }

    /** Applying a policy template writes and reads back the profile only.  It clears the recorded
        state without looking at whether the account is disabled, and replaces the controls. */
    method ApplyTemplate(profile: string, newExpiry: int) returns (applied: bool)
      requires Valid()
      modifies this
      ensures Valid() && Extends() && clock == old(clock)
      ensures applied ==> recorded == Clear && expiresAt == newExpiry && row.Some? && row.value.profile == profile
      ensures expiresAt != old(expiresAt) ==> recorded == Clear
      ensures calm && old(row).Some? ==> applied && row.Some? && row.value.disabled == old(row).value.disabled
      ensures forall k | |old(log)| <= k < |log| :: log[k] == EnabledByOthers || log[k] == OperatorClear
    {
      hide Legal, Replay;
      applied := false;
      var unready := Fails();
      if unready {
        return;
      }
      var written := WriteProfile(profile);
      if !written {
        return;
      }
      var cleared := ClearRecord();
      var stopped := Fails();
      if cleared && !stopped {
        expiresAt := newExpiry;
        applied := true;
      }
    }

    /** An operator edits the account: the same, and then the controls are replaced. */
    method Edit(disabled: bool, newExpiry: int)
      requires Valid()
      modifies this
      ensures Valid() && Extends() && clock == old(clock)
      ensures expiresAt != old(expiresAt) ==> expiresAt == newExpiry && recorded == Clear
      ensures calm && old(row).Some? ==>
                expiresAt == newExpiry && recorded == Clear && row.Some? && row.value.disabled == disabled
    {
      hide Legal, Replay;
      var verified, _ := SetAccess(disabled);
      var stopped := Fails();
      if verified && !stopped {
        expiresAt := newExpiry;
      }
    }

    method OperatorWrite(disabled: bool) returns (verified: bool)
      requires Valid()
      modifies this`row, this`log, this`mon
      ensures Valid() && Extends()
      ensures verified && disabled ==> |log| > |old(log)| && log[|log| - 1] == SuspendVerified
      ensures verified && disabled ==> mon.verified
      ensures verified ==> row.Some? && row.value.disabled == disabled
      ensures calm && old(row).Some? ==> verified
    {
      hide Legal, Replay;
      Others();
      var lost := Fails();
      var fields: Row := *;
      if !lost && row.Some? {
        Replace(Some(fields.(disabled := disabled)));
      }
      Others();
      var failed := Fails();
      if failed || row.None? || row.value.disabled != disabled {
        return false;
      }
      if disabled {
        Emit(SuspendVerified);
      }
      verified := true;
    }

    /** Any sequence of passes, operator actions and outside changes, with the clock never going
        back, leaves an acceptable log. */
    method Run(steps: seq<Step>)
      requires Valid()
      requires forall i | 0 <= i < |steps| :: steps[i].Pass? ==> steps[i].now >= clock
      requires forall i, j | 0 <= i < j < |steps| :: steps[i].Pass? && steps[j].Pass? ==> steps[i].now <= steps[j].now
      modifies this
      ensures Valid() && Extends()
    {
      hide Legal, Replay, Consistent;
      for k := 0 to |steps|
        invariant Valid() && Extends()
        invariant forall i | k <= i < |steps| :: steps[i].Pass? ==> steps[i].now >= clock
      {
        match steps[k] {
          case Pass(user, now, quotaReached, scheduleAllows) => Apply(user, now, quotaReached, scheduleAllows);
          case Suspend => var _, _ := SetAccess(true);
          case SuspendInBulk(alreadySuspended) => var _, _ := BulkSuspend(alreadySuspended);
          case Unsuspend => var _, _ := SetAccess(false);
          case EditAccount(disabled, expiry) => Edit(disabled, expiry);
          case Template(profile, expiry) => var _ := ApplyTemplate(profile, expiry);
          case Outside => Others();
        }
      }
    }
  }

  /** Reads and outside changes only touch what has been seen, and can only end a suspension. */
  predicate SameButSeen(m: Monitor, m': Monitor) {
    && m'.recorded == m.recorded && m'.owned == m.owned && m'.expired == m.expired && m'.checkpointed == m.checkpointed
    && (m'.suspended ==> m.suspended)
  }

  datatype Step =
    | Pass(user: Row, now: int, quotaReached: bool, scheduleAllows: bool)
    | Suspend
    | SuspendInBulk(alreadySuspended: bool)
    | Unsuspend
    | EditAccount(disabled: bool, expiry: int)
    | Template(profile: string, expiry: int)
    | Outside
}
