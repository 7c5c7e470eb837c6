/** What automation and operators did to one account, as a log, and which logs are acceptable.

    The monitor is defined without reference to the automation code: it replays the log and says
    when each event is permitted.  The lemmas below are about every permitted log.
 */
module AutomationLog {

  datatype Reason = Expired | Quota | Schedule

  /** The stored enforcement state: empty, an intent ("pending:" and a reason) or a reason. */
  datatype Recorded = Clear | Pending(reason: Reason) | Settled(reason: Reason)

  /** What automation last saw of the account in a pass: nothing since the pass, the checkpoint or
      the last write; the expected account, enabled or disabled; or a different one. */
  datatype View = Unread | Seen(disabled: bool) | Changed

  datatype Event =
    | AutoBegin
    | AutoRead(view: View)
    | AutoCheckpoint
    | AutoPersist(recorded: Recorded)
    | AutoWrite(disabled: bool)
    | SuspendVerified
    | OperatorClear
    /** Somebody other than automation enabled, replaced or removed the account. */
    | EnabledByOthers

  /** view: what automation last saw; checkpointed: a configuration export was made in this pass.
      owned: automation persisted a quota or schedule intent that nobody cleared since.
      suspended: an operator's verified suspension still stands.
      expired: an expiry was recorded and no operator cleared it since. */
  datatype Monitor = Monitor(recorded: Recorded, view: View, checkpointed: bool, owned: bool, verified: bool,
                             suspended: bool, expired: bool)

  const FRESH := Monitor(Clear, Unread, false, false, false, false, false)

  predicate Restorable(r: Recorded) {
    !r.Clear? && r.reason != Expired
  }

  predicate Permitted(m: Monitor, e: Event) {
    match e
    case AutoCheckpoint => m.view.Seen?
    case AutoWrite(disabled) =>
      && m.checkpointed && m.view == Seen(!disabled)
      && if disabled then m.recorded.Pending? else Restorable(m.recorded) && m.owned && !m.suspended && !m.expired
    case AutoPersist(r) =>
      match r {
        case Clear => m.view == Seen(false) || m.view == Changed
        case Pending(_) => !m.suspended && m.checkpointed && m.view == Seen(false)
        case Settled(_) => !m.suspended && m.view == Seen(true)
      }
    case _ => true
  }

  function Watch(m: Monitor, e: Event): Monitor {
    match e
    case AutoBegin => m.(view := Unread, checkpointed := false)
    case AutoRead(view) => m.(view := view)
    case AutoCheckpoint => m.(view := Unread, checkpointed := true)
    case AutoPersist(r) =>
      m.(recorded := r,
         owned := if r.Clear? then false else m.owned || (r.Pending? && r.reason != Expired),
         expired := m.expired || (!r.Clear? && r.reason == Expired))
    case AutoWrite(disabled) => m.(view := Unread, verified := m.verified && disabled)
    case SuspendVerified => m.(verified := true)
    case OperatorClear => m.(recorded := Clear, owned := false, expired := false, suspended := m.suspended || m.verified, verified := false)
    case EnabledByOthers => m.(verified := false, suspended := false)
  }

  function Replay(log: seq<Event>): Monitor {
    if log == [] then FRESH else Watch(Replay(log[..|log| - 1]), log[|log| - 1])
  }

  predicate Legal(log: seq<Event>) {
    forall i | 0 <= i < |log| :: Permitted(Replay(log[..i]), log[i])
  }

  lemma {:induction false} LegalOne(log: seq<Event>, e: Event)
    requires Legal(log) && Permitted(Replay(log), e)
    ensures Legal(log + [e]) && Replay(log + [e]) == Watch(Replay(log), e)
  {
    hide Permitted, Watch;
    var log' := log + [e];
    assert log'[..|log'| - 1] == log;
    forall i | 0 <= i < |log'|
      ensures Permitted(Replay(log'[..i]), log'[i])
    {
      assert log'[..i] == log[..i];
      if i == |log| {
        assert log[..i] == log;
      } else {
        assert log'[i] == log[i];
      }
    }
  }

  /** What one event changes, field by field. */
  lemma {:induction false} WatchFields(m: Monitor, e: Event)
    ensures Watch(m, e).recorded == if e.AutoPersist? then e.recorded else if e == OperatorClear then Clear else m.recorded
    ensures Watch(m, e).view == if e.AutoRead? then e.view
                                else if e.AutoWrite? || e == AutoBegin || e == AutoCheckpoint then Unread else m.view
    ensures Watch(m, e).checkpointed == if e == AutoCheckpoint then true else if e == AutoBegin then false else m.checkpointed
    ensures Watch(m, e).owned ==>
              (e.AutoPersist? && e.recorded.Pending? && e.recorded.reason != Expired)
              || (m.owned && e != OperatorClear && e != AutoPersist(Clear))
  {
  }

  lemma {:induction false} ReplayStep(log: seq<Event>, n: nat)
    requires 0 < n <= |log|
    ensures Replay(log[..n]) == Watch(Replay(log[..n - 1]), log[n - 1])
  {
    hide Watch;
    assert log[..n][..n - 1] == log[..n - 1];
  }

  /** A suspension stands from the moment it is recorded as verified until others enable the account. */
  lemma {:induction false} SuspensionStands(log: seq<Event>, i: nat, c: nat, j: nat)
    requires i < c < j <= |log| && log[i] == SuspendVerified && log[c] == OperatorClear
    requires forall k | i < k < c :: log[k] != AutoWrite(false)
    requires forall k | i < k < j :: log[k] != EnabledByOthers
    ensures Replay(log[..j]).suspended
    decreases j
  {
    ReplayStep(log, j);
    if j == c + 1 {
      VerifiedStands(log, i, c);
    } else {
      SuspensionStands(log, i, c, j - 1);
    }
  }

  lemma {:induction false} VerifiedStands(log: seq<Event>, i: nat, j: nat)
    requires i < j <= |log| && log[i] == SuspendVerified
    requires forall k | i < k < j :: log[k] != EnabledByOthers && log[k] != AutoWrite(false)
    ensures Replay(log[..j]).verified || Replay(log[..j]).suspended
    decreases j
  {
    ReplayStep(log, j);
    if j > i + 1 {
      VerifiedStands(log, i, j - 1);
    }
  }

  /** Automation never undoes a manual suspension that was read back at i and recorded at c: before
      automation may enable the account, somebody else must have. */
  lemma {:induction false} SuspensionIsNeverUndone(log: seq<Event>, i: nat, c: nat, j: nat)
    requires Legal(log)
    requires i < c < j < |log| && log[i] == SuspendVerified && log[c] == OperatorClear && log[j] == AutoWrite(false)
    requires forall k | i < k < c :: log[k] != AutoWrite(false)
    ensures exists k :: i < k < j && log[k] == EnabledByOthers
  {
    assert Permitted(Replay(log[..j]), log[j]);
    if forall k | i < k < j :: log[k] != EnabledByOthers {
      SuspensionStands(log, i, c, j);
    }
  }

  lemma {:induction false} OwnedByIntent(log: seq<Event>, j: nat) returns (k: nat)
    requires j <= |log| && Replay(log[..j]).owned
    ensures k < j && log[k].AutoPersist? && log[k].recorded.Pending? && log[k].recorded.reason != Expired
    ensures forall c | k < c < j :: log[c] != OperatorClear && log[c] != AutoPersist(Clear)
    decreases j
  {
    hide Watch;
    assert j > 0;
    ReplayStep(log, j);
    WatchFields(Replay(log[..j - 1]), log[j - 1]);
    var e := log[j - 1];
    if e.AutoPersist? && e.recorded.Pending? && e.recorded.reason != Expired {
      k := j - 1;
    } else {
      k := OwnedByIntent(log, j - 1);
    }
  }

  /** Automation enables only accounts for which it had persisted a quota or schedule intent that
      nobody has cleared since. */
  lemma {:induction false} EnableNeedsOwnIntent(log: seq<Event>, j: nat) returns (k: nat)
    requires Legal(log) && j < |log| && log[j] == AutoWrite(false)
    ensures k < j && log[k].AutoPersist? && log[k].recorded.Pending? && log[k].recorded.reason != Expired
    ensures forall c | k < c < j :: log[c] != OperatorClear && log[c] != AutoPersist(Clear)
  {
    assert Permitted(Replay(log[..j]), log[j]);
    k := OwnedByIntent(log, j);
  }

  lemma {:induction false} RecordedByLastPersist(log: seq<Event>, j: nat) returns (k: nat)
    requires j <= |log| && !Replay(log[..j]).recorded.Clear?
    ensures k < j && log[k] == AutoPersist(Replay(log[..j]).recorded)
    ensures forall c | k < c < j :: log[c] != OperatorClear && !log[c].AutoPersist?
    decreases j
  {
    hide Watch;
    assert j > 0;
    ReplayStep(log, j);
    WatchFields(Replay(log[..j - 1]), log[j - 1]);
    if log[j - 1].AutoPersist? {
      k := j - 1;
    } else {
      k := RecordedByLastPersist(log, j - 1);
    }
  }

  /** Every disabling write comes right after its own intent, with nothing recorded in between. */
  lemma {:induction false} IntentPrecedesDisable(log: seq<Event>, j: nat) returns (k: nat)
    requires Legal(log) && j < |log| && log[j] == AutoWrite(true)
    ensures k < j && log[k].AutoPersist? && log[k].recorded.Pending?
    ensures forall c | k < c < j :: log[c] != OperatorClear && !log[c].AutoPersist?
  {
    assert Permitted(Replay(log[..j]), log[j]);
    k := RecordedByLastPersist(log, j);
  }

  lemma {:induction false} ExpiryStands(log: seq<Event>, i: nat, j: nat)
    requires i < j <= |log| && log[i].AutoPersist? && !log[i].recorded.Clear? && log[i].recorded.reason == Expired
    requires forall k | i < k < j :: log[k] != OperatorClear
    ensures Replay(log[..j]).expired
    decreases j
  {
    ReplayStep(log, j);
    if j > i + 1 {
      ExpiryStands(log, i, j - 1);
    }
  }

  /** An account recorded as expired is never enabled by automation before an operator clears the
      recorded state. */
  lemma {:induction false} ExpiryIsNeverUndone(log: seq<Event>, i: nat, j: nat)
    requires Legal(log)
    requires i < j < |log| && log[i].AutoPersist? && !log[i].recorded.Clear? && log[i].recorded.reason == Expired
    requires log[j] == AutoWrite(false)
    ensures exists k :: i < k < j && log[k] == OperatorClear
  {
    assert Permitted(Replay(log[..j]), log[j]);
    if forall k | i < k < j :: log[k] != OperatorClear {
      ExpiryStands(log, i, j);
    }
  }

  /** Where a view comes from: the last read of the pass, later than its checkpoint and writes. */
  lemma {:induction false} SeenByRead(log: seq<Event>, j: nat) returns (k: nat)
    requires j <= |log| && Replay(log[..j]).view != Unread
    ensures k < j && log[k] == AutoRead(Replay(log[..j]).view)
    ensures forall c | k < c < j :: !log[c].AutoWrite? && log[c] != AutoBegin && log[c] != AutoCheckpoint && !log[c].AutoRead?
    decreases j
  {
    hide Watch;
    assert j > 0;
    ReplayStep(log, j);
    WatchFields(Replay(log[..j - 1]), log[j - 1]);
    if log[j - 1].AutoRead? {
      k := j - 1;
    } else {
      k := SeenByRead(log, j - 1);
    }
  }

  lemma {:induction false} CheckpointInPass(log: seq<Event>, j: nat) returns (k: nat)
    requires j <= |log| && Replay(log[..j]).checkpointed
    ensures k < j && log[k] == AutoCheckpoint && forall c | k < c < j :: log[c] != AutoBegin
    decreases j
  {
    hide Watch;
    assert j > 0;
    ReplayStep(log, j);
    WatchFields(Replay(log[..j - 1]), log[j - 1]);
    if log[j - 1] == AutoCheckpoint {
      k := j - 1;
    } else {
      k := CheckpointInPass(log, j - 1);
    }
  }

  /** A reason is settled only after the account was read back as disabled, in the same pass and
      after the last write. */
  lemma {:induction false} SettledAfterReadback(log: seq<Event>, j: nat) returns (k: nat)
    requires Legal(log) && j < |log| && log[j].AutoPersist? && log[j].recorded.Settled?
    ensures k < j && log[k] == AutoRead(Seen(true))
    ensures forall c | k < c < j :: !log[c].AutoWrite? && log[c] != AutoBegin && log[c] != AutoCheckpoint && !log[c].AutoRead?
  {
    assert Permitted(Replay(log[..j]), log[j]);
    k := SeenByRead(log, j);
  }

  /** Every write is made after a checkpoint of the same pass, and after a read that came later than
      the checkpoint and showed the expected account in the opposite state. */
  lemma {:induction false} WriteAfterFreshRead(log: seq<Event>, j: nat) returns (checkpoint: nat, read: nat)
    requires Legal(log) && j < |log| && log[j].AutoWrite?
    ensures checkpoint < read < j && log[checkpoint] == AutoCheckpoint && log[read] == AutoRead(Seen(!log[j].disabled))
    ensures forall c | checkpoint < c < j :: log[c] != AutoBegin
    ensures forall c | read < c < j :: !log[c].AutoRead? && !log[c].AutoWrite?
  {
    assert Permitted(Replay(log[..j]), log[j]);
    read := SeenByRead(log, j);
    checkpoint := CheckpointInPass(log, j);
  }
}
