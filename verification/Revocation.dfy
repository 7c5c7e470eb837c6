/** Revoking an account's sessions after a password change.

    Every termination is backed by the read right before it; the reported status says exactly
    what the final read showed; and every reviewed session is accounted for.
 */
module Revocation {
  import opened SessionRouter
  import opened Wrappers

  datatype Pair = Pair(id: string, session: string)

  datatype Status = Verified | Incomplete | Unknown

  datatype Outcome =
    | Reported(status: Status, disconnected: nat)
    | CoordinationLost(status: Status, disconnected: nat)

  function RowIds(pairs: set<Pair>): set<string> {
    set p | p in pairs :: p.id
  }

  predicate Identified(r: Row) {
    r.id != "" && r.session != ""
  }

  function PairOf(r: Row): Pair {
    Pair(r.id, r.session)
  }

  /** The read shows the session on the row, for the account. */
  ghost predicate ShowsSession(rows: seq<Row>, username: string, p: Pair) {
    p.id != "" && p.session != "" && exists r :: r in rows && r.name == username && r.id == p.id && r.session == p.session
  }

  /** The read shows the row without a session id, for the account. */
  ghost predicate ShowsBlank(rows: seq<Row>, username: string, id: string) {
    id != "" && exists r :: r in rows && r.name == username && r.id == id && r.session == ""
  }

  /** The sessions of the account that a read identifies. */
  function Present(rows: seq<Row>, username: string): set<Pair> {
    set r | r in rows && r.name == username && Identified(r) :: PairOf(r)
  }

  /** What may be revoked: what the operator reviewed, and what the read after the update shows on
      rows the operator did not review. */
  function Captured(applied: set<Pair>, rows: seq<Row>, username: string): set<Pair> {
    applied + (set p | p in Present(rows, username) && p.id !in RowIds(applied))
  }

  /** A read that leaves nothing open: every session of the account is identified, is not one of
      the reviewed ones and sits on a row the operator reviewed (so the row has been reused). */
  predicate Clean(rows: seq<Row>, username: string, reviewed: set<Pair>, appliedRows: set<string>) {
    forall r | r in rows && r.name == username ::
      r.id != "" && r.session != "" && Pair(r.id, r.session) !in reviewed && r.id in appliedRows
  }

  predicate ReadClean(rows: seq<Row>, username: string) {
    forall r | r in rows && r.name == username :: r.id != "" && r.session != ""
  }

  /** The row a read shows for a row id of the account: the first one. */
  predicate Shows(rows: seq<Row>, username: string, p: Pair) {
    exists k :: 0 <= k < |rows| && rows[k].id == p.id && rows[k].name == username && rows[k].session == p.session
                && forall j | 0 <= j < k :: !(rows[j].id == p.id && rows[j].name == username)
  }

  /** Every termination comes right after a read that shows its row with an allowed session. */
  ghost predicate Backed(log: seq<Event>, start: nat, username: string, allowed: set<Pair>) {
    forall i | start <= i < |log| && log[i].Terminate? :: BackedAt(log, start, i, username, allowed)
  }

  ghost predicate BackedAt(log: seq<Event>, start: nat, i: nat, username: string, allowed: set<Pair>)
    requires i < |log| && log[i].Terminate?
  {
    && i > start && log[i - 1].Read?
    && exists p :: p in allowed && p.id == log[i].id && p.session != "" && Shows(log[i - 1].rows, username, p)
  }

  lemma {:induction false} BackedByRead(log: seq<Event>, start: nat, username: string, allowed: set<Pair>, e: Event)
    requires Backed(log, start, username, allowed) && !e.Terminate?
    ensures Backed(log + [e], start, username, allowed)
  {
    var log' := log + [e];
    forall i | start <= i < |log'| && log'[i].Terminate?
      ensures BackedAt(log', start, i, username, allowed)
    {
      assert BackedAt(log, start, i, username, allowed);
    }
  }

  lemma {:induction false} BackedByTerminate(log: seq<Event>, start: nat, username: string, allowed: set<Pair>,
                                             rows: seq<Row>, p: Pair)
    requires Backed(log, start, username, allowed)
    requires start < |log| && log[|log| - 1] == Read(rows)
    requires p in allowed && p.session != "" && Shows(rows, username, p)
    ensures Backed(log + [Terminate(p.id)], start, username, allowed)
  {
    hide Shows;
    var log' := log + [Terminate(p.id)];
    forall i | start <= i < |log'| && log'[i].Terminate?
      ensures BackedAt(log', start, i, username, allowed)
    {
      if i < |log| {
        assert BackedAt(log, start, i, username, allowed);
      }
    }
  }

  /** The read after the update: adds what it captured, and says whether it left rows unidentified. */
  method Capture(applied: set<Pair>, rows: seq<Row>, username: string) returns (reviewed: set<Pair>, unidentified: bool)
    ensures reviewed == Captured(applied, rows, username)
    ensures unidentified <==> !ReadClean(rows, username)
    ensures (forall p | p in applied :: p.session != "") ==> forall p | p in reviewed :: p.session != ""
  {
    reviewed, unidentified := applied, false;
    for i := 0 to |rows|
      invariant reviewed == Captured(applied, rows[..i], username)
      invariant unidentified <==> !ReadClean(rows[..i], username)
      invariant (forall p | p in applied :: p.session != "") ==> forall p | p in reviewed :: p.session != ""
    {
      var r := rows[i];
      assert rows[..i + 1] == rows[..i] + [r];
      CapturedOne(applied, rows[..i], username, r);
      if r.name == username {
        if !Identified(r) {
          unidentified := true;
        } else if r.id in RowIds(applied) && PairOf(r) !in reviewed {
        } else {
          reviewed := reviewed + {PairOf(r)};
        }
      }
    }
    assert rows[..|rows|] == rows;
  }

  lemma {:induction false} CapturedOne(applied: set<Pair>, rows: seq<Row>, username: string, r: Row)
    ensures r.name != username || !Identified(r) ==>
              Captured(applied, rows + [r], username) == Captured(applied, rows, username)
    ensures r.name == username && Identified(r) && r.id in RowIds(applied) ==>
              Captured(applied, rows + [r], username) == Captured(applied, rows, username)
    ensures r.name == username && Identified(r) && r.id !in RowIds(applied) ==>
              Captured(applied, rows + [r], username) == Captured(applied, rows, username) + {PairOf(r)}
  {
  }

  predicate Unreviewed(r: Row, username: string, reviewed: set<Pair>, appliedRows: set<string>) {
    r.name == username && Identified(r) && PairOf(r) !in reviewed && r.id !in appliedRows
  }

  predicate AllReviewed(rows: seq<Row>, username: string, reviewed: set<Pair>, appliedRows: set<string>) {
    forall r | r in rows :: !Unreviewed(r, username, reviewed, appliedRows)
  }

  lemma {:induction false} OneMoreRow(rows: seq<Row>, username: string, reviewed: set<Pair>, appliedRows: set<string>, r: Row)
    ensures AllReviewed(rows + [r], username, reviewed, appliedRows) <==>
            AllReviewed(rows, username, reviewed, appliedRows) && !Unreviewed(r, username, reviewed, appliedRows)
    ensures ReadClean(rows + [r], username) <==> ReadClean(rows, username) && (r.name == username ==> Identified(r))
  {
    assert r in rows + [r];
  }

  lemma {:induction false} OneMoreBlank(rows: seq<Row>, username: string, r: Row)
    ensures forall id :: ShowsBlank(rows + [r], username, id) <==>
                           ShowsBlank(rows, username, id) || (r.name == username && r.id == id != "" && r.session == "")
    ensures forall id :: !ShowsBlank([], username, id)
  {
    assert r in rows + [r];
  }

  /** Some session of the account is a reviewed one, or sits on a row nobody reviewed. */
  predicate StillActive(rows: seq<Row>, username: string, reviewed: set<Pair>, appliedRows: set<string>) {
    exists r | r in rows ::
      r.name == username && r.id != "" && r.session != "" && (Pair(r.id, r.session) in reviewed || r.id !in appliedRows)
  }

  lemma {:induction false} StillActiveCases(rows: seq<Row>, username: string, reviewed: set<Pair>, appliedRows: set<string>)
    ensures StillActive(rows, username, reviewed, appliedRows) <==>
            reviewed * Present(rows, username) != {} || !AllReviewed(rows, username, reviewed, appliedRows)
  {
    var both := reviewed * Present(rows, username);
    if both != {} {
      var p :| p in both;
      var r :| r in rows && r.name == username && Identified(r) && PairOf(r) == p;
      assert StillActive(rows, username, reviewed, appliedRows);
    }
    if StillActive(rows, username, reviewed, appliedRows) {
      var r :| r in rows && r.name == username && Identified(r) && (PairOf(r) in reviewed || r.id !in appliedRows);
      assert PairOf(r) in reviewed ==> PairOf(r) in both;
      assert PairOf(r) !in reviewed ==> Unreviewed(r, username, reviewed, appliedRows);
    }
    if !AllReviewed(rows, username, reviewed, appliedRows) {
      var r :| r in rows && Unreviewed(r, username, reviewed, appliedRows);
      assert StillActive(rows, username, reviewed, appliedRows);
    }
  }

  lemma {:induction false} CleanCases(rows: seq<Row>, username: string, reviewed: set<Pair>, appliedRows: set<string>)
    ensures Clean(rows, username, reviewed, appliedRows) <==>
            ReadClean(rows, username) && !StillActive(rows, username, reviewed, appliedRows)
  {
  }

  lemma {:induction false} Accounted(reviewed: set<Pair>, present: set<Pair>, left: set<Pair>)
    requires left <= reviewed && left !! present
    ensures |reviewed| == |reviewed - present - left| + |reviewed * present| + |left|
  {
    assert reviewed == (reviewed - present - left) + (reviewed * present) + left;
  }

  /** The unresolved sessions are those reviewed ones that the read does not show, but whose row was
      seen without a session id, then or earlier. */
  ghost predicate IsUnresolved(rows: seq<Row>, username: string, reviewed: set<Pair>, identityUnknown: set<Pair>, unresolved: set<Pair>) {
    forall p :: p in unresolved <==>
                  p in reviewed && !ShowsSession(rows, username, p) && (p in identityUnknown || ShowsBlank(rows, username, p.id))
  }

  /** Each reviewed session is disconnected, still shown or unresolved. */
  ghost predicate IsPartition(rows: seq<Row>, username: string, reviewed: set<Pair>, unresolved: set<Pair>, disconnected: nat) {
    var shown := set p | p in reviewed && ShowsSession(rows, username, p);
    unresolved <= reviewed && unresolved !! shown && |reviewed| == disconnected + |shown| + |unresolved|
  }

  lemma {:induction false} PresentIsShown(rows: seq<Row>, username: string, p: Pair)
    ensures p in Present(rows, username) <==> ShowsSession(rows, username, p)
  {
    if ShowsSession(rows, username, p) {
      var r :| r in rows && r.name == username && r.id == p.id && r.session == p.session;
      assert PairOf(r) == p;
    }
  }

  /** Goes through the last read.  open are the sessions whose rows were seen without a session id. */
  method Scan(rows: seq<Row>, username: string, reviewed: set<Pair>, appliedRows: set<string>, identityUnknown: set<Pair>)
    returns (open: set<Pair>, unreviewedActive: bool, unreviewedUnknown: bool)
    requires identityUnknown <= reviewed
    ensures unreviewedActive <==> !AllReviewed(rows, username, reviewed, appliedRows)
    ensures open == {} && !unreviewedUnknown <==> identityUnknown == {} && ReadClean(rows, username)
    ensures forall p :: p in open <==> p in reviewed && (p in identityUnknown || ShowsBlank(rows, username, p.id))
  {
    hide ShowsBlank, AllReviewed, ReadClean;
    open, unreviewedActive, unreviewedUnknown := identityUnknown, false, false;
    NoRows(username, reviewed, appliedRows, rows[..0]);
    for i := 0 to |rows|
      invariant unreviewedActive <==> !AllReviewed(rows[..i], username, reviewed, appliedRows)
      invariant open == {} && !unreviewedUnknown <==> identityUnknown == {} && ReadClean(rows[..i], username)
      invariant forall p :: p in open <==> p in reviewed && (p in identityUnknown || ShowsBlank(rows[..i], username, p.id))
    {
      var r := rows[i];
      assert rows[..i + 1] == rows[..i] + [r];
      OneMoreRow(rows[..i], username, reviewed, appliedRows, r);
      OneMoreBlank(rows[..i], username, r);
      if r.name == username {
        if !Identified(r) {
          var matching := if r.id != "" then set p | p in reviewed && p.id == r.id else {};
          if matching != {} {
            open := open + matching;
          } else {
            unreviewedUnknown := true;
          }
        } else if PairOf(r) !in reviewed && r.id !in appliedRows {
          unreviewedActive := true;
        }
      }
    }
    assert rows[..|rows|] == rows;
  }

  lemma {:induction false} NoRows(username: string, reviewed: set<Pair>, appliedRows: set<string>, rows: seq<Row>)
    requires rows == []
    ensures AllReviewed(rows, username, reviewed, appliedRows) && ReadClean(rows, username)
    ensures forall id :: !ShowsBlank(rows, username, id)
  {
  }

  /** The final report: exactly when it is verified, and where every reviewed session went. */
  method Summarize(rows: seq<Row>, username: string, reviewed: set<Pair>, appliedRows: set<string>,
                   identityUnknown: set<Pair>, inventoryUnknown: bool, ambiguous: bool)
    returns (status: Status, disconnected: nat, ghost unresolved: set<Pair>)
    requires identityUnknown <= reviewed
    ensures status == Verified <==>
            Clean(rows, username, reviewed, appliedRows) && identityUnknown == {} && !inventoryUnknown && !ambiguous
    ensures status == Incomplete <==> StillActive(rows, username, reviewed, appliedRows)
    ensures status == Unknown ==> !ReadClean(rows, username) || identityUnknown != {} || inventoryUnknown || ambiguous
    ensures IsUnresolved(rows, username, reviewed, identityUnknown, unresolved)
    ensures IsPartition(rows, username, reviewed, unresolved, disconnected)
  {
    hide Present, Clean, StillActive, ShowsBlank, ReadClean, AllReviewed, ShowsSession, IsUnresolved, IsPartition;
    var present := Present(rows, username);
    var open, unreviewedActive, unreviewedUnknown := Scan(rows, username, reviewed, appliedRows, identityUnknown);
    StillActiveCases(rows, username, reviewed, appliedRows);
    CleanCases(rows, username, reviewed, appliedRows);
    var incomplete := reviewed * present != {} || unreviewedActive;
    var left := open - present;
    disconnected := |reviewed - present - left|;
    unresolved := left;
    Partitioned(rows, username, reviewed, identityUnknown, open);
    if !incomplete {
      OpenOrShown(reviewed, present, open);
    }
    status := if incomplete then Incomplete
              else if left != {} || unreviewedUnknown || inventoryUnknown || ambiguous then Unknown
              else Verified;
  }

  lemma {:induction false} OpenOrShown(reviewed: set<Pair>, present: set<Pair>, open: set<Pair>)
    requires open <= reviewed && reviewed * present == {}
    ensures open - present == open
  {
    assert forall p | p in open :: p in present ==> p in reviewed * present;
  }

  lemma {:induction false} Partitioned(rows: seq<Row>, username: string, reviewed: set<Pair>, identityUnknown: set<Pair>, open: set<Pair>)
    requires identityUnknown <= reviewed
    requires forall p :: p in open <==> p in reviewed && (p in identityUnknown || ShowsBlank(rows, username, p.id))
    ensures var left := open - Present(rows, username);
            && IsUnresolved(rows, username, reviewed, identityUnknown, left)
            && IsPartition(rows, username, reviewed, left, |reviewed - Present(rows, username) - left|)
  {
    hide Present, ShowsSession, ShowsBlank;
    PresentAreShown(rows, username, reviewed);
    Accounted(reviewed, Present(rows, username), open - Present(rows, username));
  }

  lemma {:induction false} PresentAreShown(rows: seq<Row>, username: string, reviewed: set<Pair>)
    ensures forall p :: p in Present(rows, username) <==> ShowsSession(rows, username, p)
    ensures reviewed * Present(rows, username) == set p | p in reviewed && ShowsSession(rows, username, p)
  {
    forall p
      ensures p in Present(rows, username) <==> ShowsSession(rows, username, p)
    {
      PresentIsShown(rows, username, p);
    }
  }

  /** The first row of the account with the given row id, if any. */
  method FirstRow(rows: seq<Row>, username: string, id: string) returns (row: Option<Row>)
    ensures row.None? <==> forall r | r in rows :: !(r.id == id && r.name == username)
    ensures row.Some? ==> row.value.id == id && Shows(rows, username, PairOf(row.value))
    ensures forall p: Pair | p.id == id && Shows(rows, username, p) :: row.Some? && row.value.session == p.session
  {
    for i := 0 to |rows|
      invariant forall j | 0 <= j < i :: !(rows[j].id == id && rows[j].name == username)
    {
      if rows[i].id == id && rows[i].name == username {
        return Some(rows[i]);
      }
    }
    row := None;
  }

  /** Where the reviewed sessions went, according to the last read of the log. */
  ghost predicate Accounts(log: seq<Event>, username: string, reviewed: set<Pair>, blank: set<Pair>, unresolved: set<Pair>,
                           disconnected: nat)
  {
    && |log| > 0 && log[|log| - 1].Read?
    && IsUnresolved(log[|log| - 1].rows, username, reviewed, blank, unresolved)
    && IsPartition(log[|log| - 1].rows, username, reviewed, unresolved, disconnected)
  }

  /** The last read shows a reviewed session, or one on a row that nobody reviewed. */
  ghost predicate IncompleteBy(log: seq<Event>, username: string, reviewed: set<Pair>, appliedRows: set<string>) {
    |log| > 0 && log[|log| - 1].Read? && StillActive(log[|log| - 1].rows, username, reviewed, appliedRows)
  }

  /** Why nothing can be said: a failed read, or one with an unidentified session of the account. */
  ghost predicate UnknownBy(log: seq<Event>, start: nat, username: string) {
    exists i | start <= i < |log| :: log[i].ReadFailed? || (log[i].Read? && !ReadClean(log[i].rows, username))
  }

  /** The captured sessions, from the first read after the update. */
  ghost predicate CapturedFrom(log: seq<Event>, start: nat, applied: set<Pair>, username: string, reviewed: set<Pair>) {
    && start < |log|
    && reviewed == if log[start].Read? then Captured(applied, log[start].rows, username) else applied
  }

  /** A verified report: every read succeeded, the first and the last leave nothing open. */
  ghost predicate VerifiedBy(log: seq<Event>, start: nat, username: string, reviewed: set<Pair>, appliedRows: set<string>) {
    && start < |log| && log[start].Read? && ReadClean(log[start].rows, username)
    && log[|log| - 1].Read? && Clean(log[|log| - 1].rows, username, reviewed, appliedRows)
    && forall i | start <= i < |log| :: log[i] != ReadFailed
  }

  /** The last read, and the report from it. */
  method FinalReport(router: Router, ghost start: nat, username: string, applied: set<Pair>, reviewed: set<Pair>,
                     identityUnknown: set<Pair>, inventoryUnknown: bool, ambiguous: bool)
    returns (outcome: Outcome, ghost unresolved: set<Pair>)
    requires CapturedFrom(router.log, start, applied, username, reviewed) && Backed(router.log, start, username, reviewed)
    requires identityUnknown <= reviewed
    requires !inventoryUnknown <==> router.log[start].Read? && ReadClean(router.log[start].rows, username)
    requires !router.log[start].Terminate? && forall i | start < i < |router.log| :: router.log[i] != ReadFailed
    modifies router
    ensures old(router.log) <= router.log && CapturedFrom(router.log, start, applied, username, reviewed)
    ensures Backed(router.log, start, username, reviewed)
    ensures outcome.status == Verified ==>
              VerifiedBy(router.log, start, username, reviewed, RowIds(applied)) && !ambiguous && identityUnknown == {}
    ensures outcome.status == Incomplete <==> IncompleteBy(router.log, username, reviewed, RowIds(applied))
    ensures outcome.status == Unknown ==> UnknownBy(router.log, start, username) || ambiguous || identityUnknown != {}
    ensures outcome.Reported? && |router.log| == |old(router.log)| + 1
    ensures if router.log[|router.log| - 1].Read? then Accounts(router.log, username, reviewed, identityUnknown, unresolved, outcome.disconnected)
            else outcome == Reported(Unknown, 0)
  {
    hide Captured, Clean, ReadClean, Present, Shows, Identified, RowIds, StillActive, BackedAt, IsUnresolved, IsPartition;
    ghost var before := router.log;
    var rows := router.ListSessions();
    BackedByRead(before, start, username, reviewed, router.log[|before|]);
    if rows.None? {
      return Reported(Unknown, 0), {};
    }
    var status, disconnected;
    status, disconnected, unresolved :=
      Summarize(rows.value, username, reviewed, RowIds(applied), identityUnknown, inventoryUnknown, ambiguous);
    outcome := Reported(status, disconnected);
  }

  /** The reviewed sessions that name both a row and a session. */
  function Usable(sessions: set<Pair>): (usable: set<Pair>)
    ensures forall p | p in usable :: p.session != ""
  {
    set p | p in sessions && p.id != "" && p.session != ""
  }

  /** What is revoked, from the operator's list and the first read: the listed sessions that name a
      row and a session, and those the read shows on rows that the list does not have. */
  ghost predicate IsReviewed(log: seq<Event>, start: nat, sessions: set<Pair>, username: string, p: Pair) {
    && p.id != "" && p.session != ""
    && (p in sessions
        || (start < |log| && log[start].Read? && ShowsSession(log[start].rows, username, p)
            && forall q | q in sessions && q.id == p.id :: q.session == ""))
  }

  lemma {:induction false} CapturedAreReviewed(log: seq<Event>, start: nat, sessions: set<Pair>, username: string, reviewed: set<Pair>)
    requires CapturedFrom(log, start, Usable(sessions), username, reviewed)
    ensures forall p :: p in reviewed <==> IsReviewed(log, start, sessions, username, p)
  {
    hide Present, ShowsSession;
    var applied := Usable(sessions);
    forall p
      ensures p in reviewed <==> IsReviewed(log, start, sessions, username, p)
    {
      if p.id != "" {
        UsableRow(sessions, p.id);
      }
      if log[start].Read? {
        PresentIsShown(log[start].rows, username, p);
        ShownIsNamed(log[start].rows, username, p);
      }
    }
  }

  lemma {:induction false} ShownIsNamed(rows: seq<Row>, username: string, p: Pair)
    ensures ShowsSession(rows, username, p) ==> p.id != "" && p.session != ""
  {
  }

  lemma {:induction false} UsableRow(sessions: set<Pair>, id: string)
    requires id != ""
    ensures id !in RowIds(Usable(sessions)) <==> forall q | q in sessions && q.id == id :: q.session == ""
  {
    var usable := Usable(sessions);
    assert forall q :: q in usable <==> q in sessions && q.id != "" && q.session != "";
  }

  ghost predicate SeenBlank(log: seq<Event>, start: nat, username: string, p: Pair) {
    exists i | start < i < |log| :: log[i].Read? && Shows(log[i].rows, username, Pair(p.id, ""))
  }

  /** The session was looked for in a read that shows its row, if at all, with a session id; and if
      the read showed the session, its termination was requested. */
  ghost predicate Tried(log: seq<Event>, start: nat, username: string, p: Pair) {
    exists i | start < i < |log| ::
      && log[i].Read? && !Shows(log[i].rows, username, Pair(p.id, ""))
      && (Shows(log[i].rows, username, p) ==> i + 1 < |log| && log[i + 1] == Terminate(p.id))
  }

  /** Each of the sessions was tried, or its row was seen without a session id. */
  ghost predicate AllTried(log: seq<Event>, start: nat, username: string, sessions: set<Pair>, blank: set<Pair>) {
    && (forall p | p in sessions && p !in blank :: Tried(log, start, username, p))
    && forall p | p in blank :: SeenBlank(log, start, username, p)
  }

  lemma {:induction false} StillAllTried(log: seq<Event>, start: nat, username: string, sessions: set<Pair>, blank: set<Pair>,
                                         log': seq<Event>)
    requires log <= log' && AllTried(log, start, username, sessions, blank)
    ensures AllTried(log', start, username, sessions, blank)
  {
    hide Shows;
    assert forall i | 0 <= i < |log| :: log'[i] == log[i];
    forall p | p in sessions && p !in blank
      ensures Tried(log', start, username, p)
    {
      var i :| start < i < |log| && log[i].Read? && !Shows(log[i].rows, username, Pair(p.id, ""))
               && (Shows(log[i].rows, username, p) ==> i + 1 < |log| && log[i + 1] == Terminate(p.id));
      assert log'[i] == log[i];
    }
    forall p | p in blank
      ensures SeenBlank(log', start, username, p)
    {
      var i :| start < i < |log| && log[i].Read? && Shows(log[i].rows, username, Pair(p.id, ""));
      assert log'[i] == log[i];
    }
  }

  lemma {:induction false} OneMoreTried(log: seq<Event>, start: nat, username: string, sessions: set<Pair>, blank: set<Pair>, p: Pair,
                                        isBlank: bool)
    requires AllTried(log, start, username, sessions, blank)
    requires if isBlank then SeenBlank(log, start, username, p) else Tried(log, start, username, p)
    ensures AllTried(log, start, username, sessions + {p}, if isBlank then blank + {p} else blank)
  {
    hide Tried, SeenBlank;
  }

  datatype Progress = Unreadable | NotOwned | Unidentified | Handled

  /** One reviewed session: reread, and terminate its row only if it still carries the session. */
  method RevokeOne(router: Router, ghost start: nat, username: string, ghost reviewed: set<Pair>, p: Pair)
    returns (progress: Progress)
    requires start < |router.log| && p in reviewed && p.session != "" && Backed(router.log, start, username, reviewed)
    modifies router
    ensures |router.log| > |old(router.log)| && old(router.log) < router.log
    ensures Backed(router.log, start, username, reviewed)
    ensures progress == Unreadable ==> router.log[|router.log| - 1] == ReadFailed
    ensures progress != Unreadable ==> forall i | |old(router.log)| <= i < |router.log| :: router.log[i] != ReadFailed
    ensures progress == Handled ==> Tried(router.log, start, username, p)
    ensures progress == Unidentified ==> SeenBlank(router.log, start, username, p)
    ensures progress == NotOwned ==> router.log[|router.log| - 1].Read? && Shows(router.log[|router.log| - 1].rows, username, p)
  {
    hide Shows, Backed;
    ghost var before := router.log;
    var current := router.ListSessions();
    BackedByRead(before, start, username, reviewed, router.log[|before|]);
    if current.None? {
      return Unreadable;
    }
    var row := FirstRow(current.value, username, p.id);
    ghost var read := |before|;
    assert router.log[read] == Read(current.value);
    if row.Some? && row.value.session == "" {
      assert PairOf(row.value) == Pair(p.id, "");
      return Unidentified;
    }
    if row.None? || row.value.session != p.session {
      return Handled;
    }
    var owned: bool := *;
    if !owned {
      return NotOwned;
    }
    BackedByTerminate(router.log, start, username, reviewed, current.value, p);
    var _ := router.TerminateSession(p.id);
    assert router.log[read] == Read(current.value) && router.log[read + 1] == Terminate(p.id);
    progress := Handled;
  }

  /** Ownership was lost when a reviewed session was shown and about to be terminated. */
  ghost predicate LostAt(log: seq<Event>, username: string, reviewed: set<Pair>) {
    |log| > 1 && log[|log| - 2].Read? && exists p :: p in reviewed && Shows(log[|log| - 2].rows, username, p)
  }

  /** One session after the other, until a read fails or ownership is lost. */
  method RevokeAll(router: Router, ghost start: nat, username: string, targets: set<Pair>)
    returns (progress: Progress, identityUnknown: set<Pair>)
    requires start < |router.log| && Backed(router.log, start, username, targets) && forall p | p in targets :: p.session != ""
    requires !router.log[start].Terminate? && start + 1 == |router.log|
    modifies router
    ensures old(router.log) <= router.log && Backed(router.log, start, username, targets) && identityUnknown <= targets
    ensures progress == Unreadable ==> |router.log| > |old(router.log)| && router.log[|router.log| - 1] == ReadFailed
    ensures progress != Unreadable ==> forall i | start < i < |router.log| :: router.log[i] != ReadFailed
    ensures progress == NotOwned ==>
              router.log[|router.log| - 1].Read? && exists p :: p in targets && Shows(router.log[|router.log| - 1].rows, username, p)
    ensures progress == Handled ==> AllTried(router.log, start, username, targets, identityUnknown)
    ensures progress != Unidentified
  {
    hide Shows, BackedAt, Backed, Tried, SeenBlank, AllTried;
    NothingTried(router.log, start, username);
    var todo := targets;
    identityUnknown := {};
    ghost var done := {};
    while todo != {}
      invariant identityUnknown <= targets && forall p :: p in targets <==> p in done || p in todo
      invariant old(router.log) <= router.log && Backed(router.log, start, username, targets)
      invariant forall i | start < i < |router.log| :: router.log[i] != ReadFailed
      invariant AllTried(router.log, start, username, done, identityUnknown)
      decreases |todo|
    {
      var p: Pair :| p in todo;
      todo := todo - {p};
      ghost var before := router.log;
      progress := RevokeOne(router, start, username, targets, p);
      if progress == Unreadable || progress == NotOwned {
        return;
      }
      StillAllTried(before, start, username, done, identityUnknown, router.log);
      OneMoreTried(router.log, start, username, done, identityUnknown, p, progress == Unidentified);
      if progress == Unidentified {
        identityUnknown := identityUnknown + {p};
      }
      done := done + {p};
    }
    assert done == targets;
    progress := Handled;
  }

  method Revoke(router: Router, username: string, sessions: set<Pair>, ambiguous: bool)
    returns (outcome: Outcome, ghost reviewed: set<Pair>, ghost blank: set<Pair>, ghost unresolved: set<Pair>)
    modifies router
    ensures old(router.log) <= router.log && |router.log| > |old(router.log)|
    ensures forall p :: p in reviewed <==> IsReviewed(router.log, |old(router.log)|, sessions, username, p)
    ensures Backed(router.log, |old(router.log)|, username, reviewed)
    ensures outcome.status == Verified ==>
              VerifiedBy(router.log, |old(router.log)|, username, reviewed, RowIds(Usable(sessions))) && !ambiguous && blank == {}
    ensures outcome.status == Incomplete ==> IncompleteBy(router.log, username, reviewed, RowIds(Usable(sessions)))
    ensures outcome.status == Unknown ==> UnknownBy(router.log, |old(router.log)|, username) || ambiguous || blank != {}
    ensures if router.log[|router.log| - 1].Read? then Accounts(router.log, username, reviewed, blank, unresolved, outcome.disconnected)
            else outcome.status == Unknown && outcome.disconnected == 0
    ensures outcome.Reported? && (forall i | |old(router.log)| < i < |router.log| :: router.log[i] != ReadFailed) ==>
              AllTried(router.log, |old(router.log)|, username, reviewed, blank)
    ensures outcome.CoordinationLost? ==> LostAt(router.log, username, reviewed)
  {
    hide Captured, Clean, ReadClean, Present, Shows, Identified, RowIds, StillActive, Usable, BackedAt, Tried, SeenBlank, IsReviewed,
      UnknownBy, VerifiedBy, IncompleteBy, Accounts, AllTried, LostAt, Backed;
    ghost var start := |router.log|;
    NothingBacked(router.log, username);
    var applied := Usable(sessions);
    var targets, inventoryUnknown := applied, false;
    ghost var l := router.log;
    var post := router.ListSessions();
    if post.None? {
      inventoryUnknown := true;
    } else {
      targets, inventoryUnknown := Capture(applied, post.value, username);
    }
    reviewed, unresolved := targets, {};
    BackedByRead(l, start, username, reviewed, router.log[start]);
    l := router.log;
    var progress, identityUnknown := RevokeAll(router, start, username, targets);
    blank := identityUnknown;
    assert router.log[start] == l[start];
    if progress == Unreadable {
      FailedRead(router.log, start, username);
      CapturedAreReviewed(router.log, start, sessions, username, reviewed);
      return Reported(Unknown, 0), reviewed, blank, unresolved;
    }
    l := router.log;
    outcome, unresolved := FinalReport(router, start, username, applied, targets, identityUnknown, inventoryUnknown, ambiguous);
    CapturedAreReviewed(router.log, start, sessions, username, reviewed);
    if progress == NotOwned {
      LostThere(l, router.log, username, reviewed);
      outcome := CoordinationLost(outcome.status, outcome.disconnected);
    } else {
      StillAllTried(l, start, username, targets, identityUnknown, router.log);
    }
  }

  lemma {:induction false} NothingBacked(log: seq<Event>, username: string)
    ensures forall allowed :: Backed(log, |log|, username, allowed)
  {
  }

  lemma {:induction false} NothingTried(log: seq<Event>, start: nat, username: string)
    ensures AllTried(log, start, username, {}, {})
  {
  }

  lemma {:induction false} FailedRead(log: seq<Event>, start: nat, username: string)
    requires start < |log| && log[|log| - 1] == ReadFailed
    ensures UnknownBy(log, start, username)
  {
  }

  lemma {:induction false} LostThere(log: seq<Event>, log': seq<Event>, username: string, reviewed: set<Pair>)
    requires log <= log' && |log'| == |log| + 1 && |log| > 0 && log[|log| - 1].Read?
    requires exists p :: p in reviewed && Shows(log[|log| - 1].rows, username, p)
    ensures LostAt(log', username, reviewed)
  {
    hide Shows;
    assert log'[|log| - 1] == log[|log| - 1];
  }
}
