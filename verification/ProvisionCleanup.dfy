/** Deleting temporary files and an uncommitted certificate, each with a read-back.

    A refused deletion is not the end: the answer may have been lost, so only the listing right
    after it decides whether the file or the certificate is gone.
 */
module ProvisionCleanup {
  import opened ProvisionRouter
  import opened Wrappers

  datatype Cleanup = Cleaned | NotCleaned | CleanupLost

  /** The file deletions from a point of the log on are all of the given files. */
  ghost predicate DeletesOnly(log: seq<Event>, start: nat, ids: seq<string>) {
    forall i | start <= i < |log| && log[i].Sent? && log[i].request.DeleteFile? :: log[i].request.id in ids
  }

  /** The file's deletion was sent at j, and the listing after it shows the file gone, or does not. */
  ghost predicate ReadBackAt(log: seq<Event>, j: nat, id: string, gone: bool) {
    && j + 1 < |log| && log[j] == Sent(DeleteFile(id))
    && var k := if log[j + 1] == Refusal then j + 2 else j + 1;
       k < |log| && (log[k].Files? || log[k].Failed?) && (gone <==> log[k].Files? && id !in log[k].files.Values)
  }

  /** The file was deleted and the listing right after does not have it. */
  ghost predicate ReadBackAbsent(log: seq<Event>, start: nat, id: string) {
    exists j :: start <= j && ReadBackAt(log, j, id, true)
  }

  /** The listing right after the file's deletion still has it, or could not be read. */
  ghost predicate LeftBehind(log: seq<Event>, start: nat, id: string) {
    exists j :: start <= j && ReadBackAt(log, j, id, false)
  }

  ghost predicate ReadBack(log: seq<Event>, start: nat, id: string, gone: bool) {
    if gone then ReadBackAbsent(log, start, id) else LeftBehind(log, start, id)
  }

  lemma {:induction false} StillReadBack(log: seq<Event>, start: nat, id: string, gone: bool, log': seq<Event>, earlier: nat)
    requires ReadBack(log, start, id, gone) && log <= log' && earlier <= start
    ensures ReadBack(log', earlier, id, gone)
  {
    var j :| start <= j && ReadBackAt(log, j, id, gone);
    assert forall i | 0 <= i < |log| :: log'[i] == log[i];
    assert ReadBackAt(log', j, id, gone);
  }

  ghost predicate NoCertificate(log: seq<Event>, name: string) {
    |log| > 0 && log[|log| - 1].Certs? && log[|log| - 1].name == name
    && forall c | c in log[|log| - 1].certs :: c.name != name
  }

  /** Deletes one file; it counts as deleted exactly if the listing afterwards does not have its id. */
  method DeleteFileById(router: Router, id: string) returns (r: Cleanup)
    requires id != ""
    modifies router
    ensures old(router.log) <= router.log && DeletesOnly(router.log, |old(router.log)|, [id])
    ensures SendsOnly(router.log, |old(router.log)|, {DeletingFile})
    ensures if r == CleanupLost then router.log == old(router.log) + [Unowned]
            else ReadBackAt(router.log, |old(router.log)|, id, r == Cleaned)
  {
    var reply := router.Send(DeleteFile(id));
    if reply == Lost {
      return CleanupLost;
    }
    var remaining := router.ListFiles();
    if remaining.None? || id in remaining.value.Values {
      return NotCleaned;
    }
    r := Cleaned;
  }

  /** Deletes each of the files, whatever becomes of the others. */
  method DeleteFiles(router: Router, ids: seq<string>) returns (r: Cleanup)
    requires forall i | 0 <= i < |ids| :: ids[i] != ""
    modifies router
    ensures old(router.log) <= router.log && DeletesOnly(router.log, |old(router.log)|, ids)
    ensures SendsOnly(router.log, |old(router.log)|, {DeletingFile})
    ensures r == Cleaned ==> forall id | id in ids :: ReadBackAbsent(router.log, |old(router.log)|, id)
    ensures r == NotCleaned ==> exists id :: id in ids && LeftBehind(router.log, |old(router.log)|, id)
    ensures r == CleanupLost ==> |router.log| > |old(router.log)| && router.log[|router.log| - 1] == Unowned
    ensures r != CleanupLost ==>
              forall id | id in ids ::
                ReadBackAbsent(router.log, |old(router.log)|, id) || LeftBehind(router.log, |old(router.log)|, id)
  {
    hide ReadBackAt, ReadBackAbsent, LeftBehind;
    ghost var start := |router.log|;
    r := Cleaned;
    var done: set<string> := {};
    ghost var left: set<string> := {};
    for i := 0 to |ids|
      invariant old(router.log) <= router.log && DeletesOnly(router.log, start, ids)
      invariant SendsOnly(router.log, start, {DeletingFile})
      invariant r == (if left == {} then Cleaned else NotCleaned) && left <= done && done == set k | 0 <= k < i :: ids[k]
      invariant forall id | id in done && id !in left :: ReadBackAbsent(router.log, start, id)
      invariant forall id | id in left :: LeftBehind(router.log, start, id)
    {
      if ids[i] !in done {
        ghost var before := router.log;
        var deleted := DeleteFileById(router, ids[i]);
        if deleted == CleanupLost {
          return CleanupLost;
        }
        if deleted == NotCleaned {
          r := NotCleaned;
          left := left + {ids[i]};
        }
        ReadBackSince(router.log, start, |before|, ids[i], deleted == Cleaned);
        forall id | id in done && id !in left
          ensures ReadBackAbsent(router.log, start, id)
        {
          StillReadBack(before, start, id, true, router.log, start);
        }
        forall id | id in left
          ensures LeftBehind(router.log, start, id)
        {
          if id in done {
            StillReadBack(before, start, id, false, router.log, start);
          }
        }
        done := done + {ids[i]};
      }
    }
    if left != {} {
      var id :| id in left;
      assert LeftBehind(router.log, start, id);
    }
  }

  lemma {:induction false} ReadBackSince(log: seq<Event>, start: nat, j: nat, id: string, gone: bool)
    requires start <= j && ReadBackAt(log, j, id, gone)
    ensures ReadBack(log, start, id, gone)
  {
  }

  lemma {:induction false} DeletesTogether(log: seq<Event>, start: nat, log': seq<Event>, ids: seq<string>, others: seq<string>)
    requires log <= log' && DeletesOnly(log, start, others) && DeletesOnly(log', |log|, ids)
    requires others == [] || ids == []
    ensures DeletesOnly(log', start, if ids == [] then others else ids)
  {
    forall i | start <= i < |log'| && log'[i].Sent? && log'[i].request.DeleteFile?
      ensures log'[i].request.id in if ids == [] then others else ids
    {
      if i < |log| {
        assert log[i] == log'[i];
      }
    }
  }

  // ----- The certificate -----------------------------------------------------------------------

  function IdsNamed(certs: seq<Cert>, name: string): seq<string> {
    if certs == [] then []
    else (if certs[0].name == name then [certs[0].id] else []) + IdsNamed(certs[1..], name)
  }

  /** Exactly one of the records has the name, and it has the id. */
  ghost predicate OnlyNamed(certs: seq<Cert>, name: string, id: string) {
    exists k | 0 <= k < |certs| :: OnlyNamedAt(certs, name, id, k)
  }

  ghost predicate OnlyNamedAt(certs: seq<Cert>, name: string, id: string, k: nat)
    requires k < |certs|
  {
    certs[k].name == name && certs[k].id == id && forall j | 0 <= j < |certs| && j != k :: certs[j].name != name
  }

  lemma {:induction false} NoneNamed(certs: seq<Cert>, name: string)
    ensures IdsNamed(certs, name) == [] <==> forall c | c in certs :: c.name != name
  {
    if certs != [] {
      NoneNamed(certs[1..], name);
      assert certs == [certs[0]] + certs[1..];
    }
  }

  lemma {:induction false} FirstAndRest(first: string, rest: seq<string>, id: string)
    ensures [first] + rest == [id] <==> first == id && rest == []
  {
    assert |[first] + rest| == 1 + |rest| && ([first] + rest)[0] == first;
  }

  lemma {:induction false} OneNamed(certs: seq<Cert>, name: string, id: string)
    ensures IdsNamed(certs, name) == [id] <==> OnlyNamed(certs, name, id)
  {
    if certs != [] {
      var rest := certs[1..];
      NoneNamed(rest, name);
      OneNamed(rest, name, id);
      if certs[0].name == name {
        assert IdsNamed(certs, name) == [certs[0].id] + IdsNamed(rest, name);
        FirstAndRest(certs[0].id, IdsNamed(rest, name), id);
        assert forall j | 1 <= j < |certs| :: certs[j] == rest[j - 1];
        if certs[0].id == id && IdsNamed(rest, name) == [] {
          assert OnlyNamedAt(certs, name, id, 0);
        }
        if OnlyNamed(certs, name, id) {
          var k :| 0 <= k < |certs| && OnlyNamedAt(certs, name, id, k);
          assert k == 0;
          forall c | c in rest
            ensures c.name != name
          {
            var j :| 0 <= j < |rest| && rest[j] == c;
            assert certs[j + 1] == c;
          }
        }
      } else {
        if OnlyNamed(rest, name, id) {
          var k :| 0 <= k < |rest| && OnlyNamedAt(rest, name, id, k);
          assert forall j | 1 <= j < |certs| :: certs[j] == rest[j - 1];
          assert OnlyNamedAt(certs, name, id, k + 1);
        }
        if OnlyNamed(certs, name, id) {
          var k :| 0 <= k < |certs| && OnlyNamedAt(certs, name, id, k);
          assert OnlyNamedAt(rest, name, id, k - 1);
        }
      }
    }
  }

  /** The certificate that the clean-up deletes: the known id, or the only listed one of the name. */
  ghost predicate MayRemove(log: seq<Event>, start: nat, name: string, id: string, victim: string)
    requires start < |log|
  {
    victim != "" && (if id != "" then victim == id
                     else log[start].Certs? && log[start].name == name && OnlyNamed(log[start].certs, name, victim))
  }

  /** The ids to choose from: the known one, or those of the records of the name. */
  method FindCandidates(router: Router, name: string, id: string) returns (candidates: Option<seq<string>>)
    modifies router
    ensures id != "" ==> candidates == Some([id]) && router.log == old(router.log)
    ensures id == "" && candidates.None? ==> router.log == old(router.log) + [Failed]
    ensures id == "" && candidates.Some? ==>
              && |router.log| == |old(router.log)| + 1 && old(router.log) <= router.log
              && var listed := router.log[|old(router.log)|];
                 && listed.Certs? && listed.name == name
                 && (candidates.value == [] <==> forall c | c in listed.certs :: c.name != name)
                 && forall victim :: candidates.value == [victim] <==> OnlyNamed(listed.certs, name, victim)
  {
    hide OnlyNamed;
    if id != "" {
      return Some([id]);
    }
    var listed := router.ListCerts(name);
    if listed.None? {
      return None;
    }
    candidates := Some(IdsNamed(listed.value, name));
    NoneNamed(listed.value, name);
    forall victim
      ensures candidates.value == [victim] <==> OnlyNamed(listed.value, name, victim)
    {
      OneNamed(listed.value, name, victim);
    }
  }

  /** The certificate deletions since a point of the log are all of the victim; nothing else is sent. */
  ghost predicate RemovesOnly(log: seq<Event>, start: nat, victim: string) {
    forall i | start <= i < |log| && log[i].Sent? :: log[i].request == DeleteCert(victim)
  }

  /** The last listing of the name failed, or still shows it. */
  ghost predicate CertificateLeft(log: seq<Event>, name: string) {
    && |log| > 0
    && var last := log[|log| - 1];
       last.Failed? || (last.Certs? && last.name == name && exists c :: c in last.certs && c.name == name)
  }

  /** Deletes the one candidate, if there is one, and lists the name again. */
  method RemoveOnly(router: Router, name: string, candidates: seq<string>) returns (r: Cleanup)
    requires candidates == [] || (|candidates| == 1 && candidates[0] != "")
    modifies router
    ensures old(router.log) <= router.log && |router.log| > |old(router.log)|
    ensures if candidates == [] then !router.log[|old(router.log)|].Sent? && |router.log| == |old(router.log)| + 1
            else RemovesOnly(router.log, |old(router.log)|, candidates[0])
                 && (r != CleanupLost ==> router.log[|old(router.log)|] == Sent(DeleteCert(candidates[0])))
    ensures r == CleanupLost <==> router.log[|router.log| - 1] == Unowned
    ensures r == Cleaned <==> NoCertificate(router.log, name)
    ensures r == NotCleaned ==> CertificateLeft(router.log, name)
  {
    if |candidates| == 1 {
      var reply := router.Send(DeleteCert(candidates[0]));
      if reply == Lost {
        return CleanupLost;
      }
    }
    var remaining := router.ListCerts(name);
    if remaining.None? {
      return NotCleaned;
    }
    NoneNamed(remaining.value, name);
    r := if IdsNamed(remaining.value, name) == [] then Cleaned else NotCleaned;
  }

  /** Removes the certificate and reads back that none of its name is left. */
  method RemoveCertificate(router: Router, name: string, id: string) returns (r: Cleanup)
    modifies router
    ensures old(router.log) <= router.log && |router.log| > |old(router.log)|
    ensures forall i | |old(router.log)| <= i < |router.log| && router.log[i].Sent? ::
              router.log[i].request.DeleteCert? && MayRemove(router.log, |old(router.log)|, name, id, router.log[i].request.id)
    ensures forall victim | MayRemove(router.log, |old(router.log)|, name, id, victim) ::
              r == CleanupLost || Sent(DeleteCert(victim)) in router.log[|old(router.log)|..]
    ensures r == CleanupLost <==> router.log[|router.log| - 1] == Unowned
    ensures r == Cleaned <==> NoCertificate(router.log, name)
    ensures r == NotCleaned ==> CertificateLeft(router.log, name)
  {
    hide OnlyNamed, NoCertificate;
    ghost var start := |router.log|;
    var found := FindCandidates(router, name, id);
    if found.None? {
      LeftIsNotGone(router.log, name);
      return NotCleaned;
    }
    var candidates := found.value;
    if |candidates| > 1 {
      Undecided(router.log, start, name, candidates);
      LeftIsNotGone(router.log, name);
      return NotCleaned;
    }
    if candidates == [""] {
      Undecided(router.log, start, name, candidates);
      LeftIsNotGone(router.log, name);
      return NotCleaned;
    }
    ghost var l := router.log;
    r := RemoveOnly(router, name, candidates);
    Decided(l, start, name, id, candidates, router.log);
    if candidates != [] && r != CleanupLost {
      assert router.log[start..][|l| - start] == Sent(DeleteCert(candidates[0]));
    }
  }

  /** With several candidates, or one without an id, no record may be removed. */
  lemma {:induction false} Undecided(log: seq<Event>, start: nat, name: string, candidates: seq<string>)
    requires start < |log| && log[start].Certs? && log[start].name == name && candidates != []
    requires |candidates| > 1 || candidates == [""]
    requires forall victim :: candidates == [victim] <==> OnlyNamed(log[start].certs, name, victim)
    requires candidates == [] <==> forall c | c in log[start].certs :: c.name != name
    ensures forall victim :: !MayRemove(log, start, name, "", victim)
    ensures exists c :: c in log[start].certs && c.name == name
  {
    assert forall victim: string | candidates == [victim] :: [victim][0] == candidates[0];
  }

  lemma {:induction false} LeftIsNotGone(log: seq<Event>, name: string)
    requires CertificateLeft(log, name)
    ensures !NoCertificate(log, name)
  {
  }

  /** The one candidate is what may be removed. */
  lemma {:induction false} Decided(log: seq<Event>, start: nat, name: string, id: string, candidates: seq<string>, log': seq<Event>)
    requires |candidates| <= 1 && candidates != [""] && log <= log' && start <= |log| && start < |log'|
    requires id != "" ==> candidates == [id]
    requires id == "" ==>
               && start < |log| && log[start].Certs? && log[start].name == name
               && forall victim :: candidates == [victim] <==> OnlyNamed(log[start].certs, name, victim)
    ensures forall victim :: MayRemove(log', start, name, id, victim) <==> candidates == [victim]
  {
    hide OnlyNamed;
    if id == "" {
      assert log'[start] == log[start];
    }
  }
}
