/** The exports of a provisioning run: the CA, the client's certificate and key, and the profile.

    The certificate and the profile are exported to files on the router, which other instances
    and operators use at the same time.  So a file counts as this run's own only with evidence in
    the exchange with the router.  Every way to stop early has its reason in the exchange as well.
 */
module ProvisionExport {
  import opened ProvisionRouter
  import opened ProvisionCleanup
  import HardenProfile
  import opened Wrappers

  /** What one call is about, and the checks on contents that are parameters here. */
  datatype Setup = Setup(
    certName: string, commonName: string, ca: string,
    harden: HardenProfile.Config,
    isProfile: string -> bool,
    isCert: string -> bool,
    embeds: (string, string) -> bool,
    digest: string -> Option<string>,
    canonical: string -> string)

  function CertFile(s: Setup): string { "cert_export_" + s.certName + ".crt" }

  function KeyFile(s: Setup): string { "cert_export_" + s.certName + ".key" }

  /** Where the log shows that a file came from one of this run's exports: it was not listed
      before the export and was afterwards; a profile must embed the exported certificate. */
  datatype Evidence = Evidence(before: nat, sent: nat, seen: nat, name: string, contents: nat, certificate: nat)

  ghost predicate IsClientFile(s: Setup, name: string) {
    name == "cert_export_" + s.certName + ".crt" || name == "cert_export_" + s.certName + ".key"
  }

  ghost predicate Proves(s: Setup, log: seq<Event>, start: nat, e: Evidence, id: string) {
    && start <= e.before < e.sent < e.seen < |log|
    && log[e.before].Files? && e.name !in log[e.before].files
    && log[e.seen].Files? && e.name in log[e.seen].files && log[e.seen].files[e.name] == id != ""
    && log[e.sent].Sent?
    && match log[e.sent].request {
         case ExportCert(_) => IsClientFile(s, e.name)
         case ExportProfile(_, _, _) =>
           && s.isProfile(e.name) && start <= e.contents < |log| && start <= e.certificate < |log|
           && log[e.contents].Contents? && log[e.contents].id == id && log[e.certificate].Contents?
           && s.embeds(log[e.contents].text, log[e.certificate].text)
         case _ => false
       }
  }

  ghost predicate AllProved(s: Setup, log: seq<Event>, start: nat, ids: seq<string>, evidence: seq<Evidence>) {
    |evidence| == |ids| && forall i | 0 <= i < |ids| :: Proves(s, log, start, evidence[i], ids[i])
  }

  lemma {:induction false} StillProved(s: Setup, log: seq<Event>, start: nat, ids: seq<string>, evidence: seq<Evidence>,
                                       log': seq<Event>)
    requires AllProved(s, log, start, ids, evidence) && log <= log'
    ensures AllProved(s, log', start, ids, evidence)
  {
    forall i | 0 <= i < |ids|
      ensures Proves(s, log', start, evidence[i], ids[i])
    {
      assert Proves(s, log, start, evidence[i], ids[i]);
    }
  }

  /** The exchange ended with a read without an answer, or with a refused request. */
  ghost predicate Unanswered(log: seq<Event>) {
    |log| > 0 && (log[|log| - 1].Failed? || log[|log| - 1].Refusal?)
  }

  ghost predicate EndsUnowned(log: seq<Event>) {
    |log| > 0 && log[|log| - 1].Unowned?
  }

  // ----- The exported CA -----------------------------------------------------------------------

  datatype CaExport = Exported(name: string) | CaFailed | CaLost

  /** The names under which the dashboard's exports of the CA are known, the preferred one first. */
  function CaFiles(s: Setup): (names: seq<string>)
    ensures |names| == 2
  {
    [s.ca + ".crt", "cert_export_" + s.ca + ".crt"]
  }

  ghost predicate IsCaFile(s: Setup, name: string) {
    name == s.ca + ".crt" || name == "cert_export_" + s.ca + ".crt"
  }

  lemma {:induction false} CaFilesAreThose(s: Setup)
    ensures forall name :: name in CaFiles(s) <==> IsCaFile(s, name)
  {
    var names := CaFiles(s);
    assert names[0] == s.ca + ".crt" && names[1] == "cert_export_" + s.ca + ".crt";
  }

  /** The name to use among the files after the export: the first known one, else the only new
      certificate file. */
  ghost predicate IsChosen(s: Setup, before: set<string>, after: set<string>, name: string) {
    && name in after
    && if s.ca + ".crt" in after then name == s.ca + ".crt"
       else if "cert_export_" + s.ca + ".crt" in after then name == "cert_export_" + s.ca + ".crt"
       else IsOnlyNew(s, before, after, name)
  }

  ghost predicate IsOnlyNew(s: Setup, before: set<string>, after: set<string>, name: string) {
    forall n :: n in after && n !in before && s.isCert(n) <==> n == name
  }

  /** The log shows the only certificate of the CA's name, its export, the file chosen and contents
      with the digest of that certificate. */
  ghost predicate CaExportedAt(s: Setup, log: seq<Event>, i: nat, name: string) {
    && 0 < i && i + 4 < |log|
    && log[i - 1].Files?
    && log[i].Certs? && log[i].name == s.ca && |log[i].certs| == 1 && |s.canonical(log[i].certs[0].fingerprint)| == 64
    && log[i + 1] == Sent(ExportCa(if log[i].certs[0].id == "" then s.ca else log[i].certs[0].id))
    && log[i + 2].Files? && IsChosen(s, log[i - 1].files.Keys, log[i + 2].files.Keys, name)
    && log[i + 3].Files? && name in log[i + 3].files
    && log[i + 4].Contents? && log[i + 4].id == log[i + 3].files[name] != ""
    && s.digest(log[i + 4].text) == Some(s.canonical(log[i].certs[0].fingerprint))
  }

  ghost predicate CaMatches(s: Setup, log: seq<Event>, start: nat, name: string) {
    exists i :: start < i && CaExportedAt(s, log, i, name)
  }

  lemma {:induction false} CaStillMatches(s: Setup, log: seq<Event>, start: nat, name: string, log': seq<Event>, earlier: nat)
    requires CaMatches(s, log, start, name) && log <= log' && earlier <= start
    ensures CaMatches(s, log', earlier, name)
  {
    hide IsChosen;
    var i :| start < i && CaExportedAt(s, log, i, name);
    assert forall k | 0 <= k < |log| :: log'[k] == log[k];
    assert CaExportedAt(s, log', i, name);
  }

  /** Every deletion here is of a file just listed under one of the dashboard's CA export names. */
  ghost predicate DeletesCaFiles(s: Setup, log: seq<Event>, start: nat) {
    && (start < |log| ==> !log[start].Sent?)
    && forall i | start < i < |log| && log[i].Sent? && log[i].request.DeleteFile? ::
      log[start].Files? && exists name :: IsCaFile(s, name) && name in log[start].files
                                          && log[start].files[name] == log[i].request.id
  }

  /** The listed CA exports with an id, of the first n names. */
  ghost predicate CaFilesAreGone(s: Setup, log: seq<Event>, start: nat, n: nat)
    requires start < |log| && log[start].Files? && n <= 2
  {
    forall k | 0 <= k < n && CaFiles(s)[k] in log[start].files && log[start].files[CaFiles(s)[k]] != "" ::
      ReadBackAbsent(log, start, log[start].files[CaFiles(s)[k]])
  }

  /** A listed CA export could not be shown to be gone. */
  ghost predicate CaFileLeft(s: Setup, log: seq<Event>, start: nat) {
    && start < |log| && log[start].Files?
    && exists name :: IsCaFile(s, name) && name in log[start].files && log[start].files[name] != ""
                      && LeftBehind(log, start, log[start].files[name])
  }

  method DeleteCaFiles(router: Router, s: Setup) returns (r: Cleanup)
    modifies router
    ensures old(router.log) <= router.log && |router.log| > |old(router.log)|
    ensures DeletesCaFiles(s, router.log, |old(router.log)|) && SendsOnly(router.log, |old(router.log)|, {DeletingFile})
    ensures r == Cleaned ==> router.log[|old(router.log)|].Files? && CaFilesAreGone(s, router.log, |old(router.log)|, 2)
    ensures r == NotCleaned ==> Unanswered(router.log) || CaFileLeft(s, router.log, |old(router.log)|)
    ensures r == CleanupLost ==> EndsUnowned(router.log)
  {
    hide CaFiles, IsCaFile, ReadBackAbsent, LeftBehind, ReadBackAt;
    CaFilesAreThose(s);
    ghost var start := |router.log|;
    var files := router.ListFiles();
    if files.None? {
      return NotCleaned;
    }
    assert router.log[start] == Files(files.value);
    for k := 0 to 2
      invariant old(router.log) <= router.log && |router.log| > start && router.log[start] == Files(files.value)
      invariant DeletesCaFiles(s, router.log, start) && CaFilesAreGone(s, router.log, start, k)
      invariant SendsOnly(router.log, start, {DeletingFile})
    {
      var name := CaFiles(s)[k];
      assert IsCaFile(s, name);
      if name in files.value && files.value[name] != "" {
        ghost var before := router.log;
        r := DeleteFileById(router, files.value[name]);
        CaDeletesAdded(s, before, start, router.log, name);
        if r == CleanupLost {
          return;
        }
        ReadBackSince(router.log, start, |before|, files.value[name], r == Cleaned);
        if r == NotCleaned {
          return;
        }
        CaFilesStillGone(s, before, start, k, router.log);
      }
    }
    r := Cleaned;
  }

  lemma {:induction false} CaDeletesAdded(s: Setup, log: seq<Event>, start: nat, log': seq<Event>, name: string)
    requires start < |log| && DeletesCaFiles(s, log, start) && log <= log' && log[start].Files? && name in log[start].files
    requires IsCaFile(s, name) && DeletesOnly(log', |log|, [log[start].files[name]])
    ensures DeletesCaFiles(s, log', start)
  {
    hide IsCaFile;
    forall i | start < i < |log'| && log'[i].Sent? && log'[i].request.DeleteFile?
      ensures exists n :: IsCaFile(s, n) && n in log'[start].files && log'[start].files[n] == log'[i].request.id
    {
      if i < |log| {
        assert log'[i] == log[i];
      } else {
        assert log'[start].files[name] == log'[i].request.id;
      }
    }
  }

  lemma {:induction false} CaFilesStillGone(s: Setup, log: seq<Event>, start: nat, n: nat, log': seq<Event>)
    requires start < |log| && log[start].Files? && n <= 2 && CaFilesAreGone(s, log, start, n) && log <= log'
    ensures CaFilesAreGone(s, log', start, n)
  {
    hide CaFiles;
    forall k | 0 <= k < n && CaFiles(s)[k] in log[start].files && log[start].files[CaFiles(s)[k]] != ""
      ensures ReadBackAbsent(log', start, log[start].files[CaFiles(s)[k]])
    {
      StillReadBack(log, start, log[start].files[CaFiles(s)[k]], true, log', start);
    }
  }

  /** Rereads the file under a name and compares its digest. */
  method CheckCaFile(router: Router, s: Setup, name: string, expected: string) returns (r: CaExport)
    modifies router
    ensures old(router.log) <= router.log && |router.log| > |old(router.log)|
    ensures forall i | |old(router.log)| <= i < |router.log| :: !router.log[i].Sent?
    ensures r == CaFailed || r == Exported(name)
    ensures r.Exported? ==>
              && |router.log| == |old(router.log)| + 2
              && var listed := router.log[|old(router.log)|]; var read := router.log[|old(router.log)| + 1];
                 && listed.Files? && name in listed.files && read.Contents? && read.id == listed.files[name] != ""
                 && s.digest(read.text) == Some(expected)
    ensures r == CaFailed ==>
              || Unanswered(router.log)
              || (|router.log| == |old(router.log)| + 1 && router.log[|router.log| - 1].Files?
                  && (name in router.log[|router.log| - 1].files ==> router.log[|router.log| - 1].files[name] == ""))
              || (|router.log| == |old(router.log)| + 2 && router.log[|router.log| - 1].Contents?
                  && s.digest(router.log[|router.log| - 1].text) != Some(expected))
  {
    var files := router.ListFiles();
    if files.None? || name !in files.value || files.value[name] == "" {
      return CaFailed;
    }
    var text := router.ReadFile(files.value[name]);
    if text.None? || s.digest(text.value) != Some(expected) {
      return CaFailed;
    }
    r := Exported(name);
  }

  /** A known export name if there is one, else the only new certificate file. */
  method ChooseCaFile(s: Setup, before: set<string>, after: set<string>) returns (name: Option<string>)
    ensures name.Some? ==> IsChosen(s, before, after, name.value)
    ensures name.None? ==> NoneChosen(s, before, after)
  {
    hide IsOnlyNew;
    var known := CaFiles(s);
    assert known[0] == s.ca + ".crt" && known[1] == "cert_export_" + s.ca + ".crt";
    for k := 0 to |known|
      invariant forall j | 0 <= j < k :: known[j] !in after
    {
      if known[k] in after {
        return Some(known[k]);
      }
    }
    var created := set n | n in after && n !in before && s.isCert(n);
    OnlyNewByCount(s, before, after, created);
    if |created| == 1 {
      var n :| n in created;
      return Some(n);
    }
    name := None;
  }

  lemma {:induction false} OnlyNewByCount(s: Setup, before: set<string>, after: set<string>, created: set<string>)
    requires created == set n | n in after && n !in before && s.isCert(n)
    ensures |created| == 1 ==> forall name | name in created :: IsOnlyNew(s, before, after, name)
    ensures |created| != 1 ==> forall name :: !IsOnlyNew(s, before, after, name)
  {
    if |created| == 1 {
      forall name | name in created
        ensures IsOnlyNew(s, before, after, name)
      {
        assert |created - {name}| == 0;
        assert created == {name};
        assert forall n :: n in created <==> n in after && n !in before && s.isCert(n);
      }
    } else {
      forall name
        ensures !IsOnlyNew(s, before, after, name)
      {
        assert IsOnlyNew(s, before, after, name) ==> created == {name};
      }
    }
  }

  ghost predicate NoCaRecord(s: Setup, log: seq<Event>) {
    && |log| > 0
    && var last := log[|log| - 1];
       last.Certs? && last.name == s.ca && (|last.certs| == 1 ==> |s.canonical(last.certs[0].fingerprint)| != 64)
  }

  ghost predicate RequestsCa(e: Event) {
    e.Sent? && e.request.ExportCa?
  }

  ghost predicate NoneChosen(s: Setup, before: set<string>, after: set<string>) {
    forall name :: !IsChosen(s, before, after, name)
  }

  ghost predicate ChosenIsGone(s: Setup, before: set<string>, after: set<string>, reread: map<string, string>) {
    exists name :: IsChosen(s, before, after, name) && (name in reread ==> reread[name] == "")
  }

  ghost predicate NoCaFile(s: Setup, log: seq<Event>) {
    && |log| >= 4 && log[|log| - 4].Files? && RequestsCa(log[|log| - 2]) && log[|log| - 1].Files?
    && NoneChosen(s, log[|log| - 4].files.Keys, log[|log| - 1].files.Keys)
  }

  ghost predicate CaFileGone(s: Setup, log: seq<Event>) {
    && |log| >= 5 && log[|log| - 5].Files? && RequestsCa(log[|log| - 3]) && log[|log| - 2].Files? && log[|log| - 1].Files?
    && ChosenIsGone(s, log[|log| - 5].files.Keys, log[|log| - 2].files.Keys, log[|log| - 1].files)
  }

  ghost predicate OtherCa(s: Setup, log: seq<Event>) {
    && |log| >= 5 && log[|log| - 5].Certs? && log[|log| - 5].name == s.ca && |log[|log| - 5].certs| == 1 && log[|log| - 1].Contents?
    && s.digest(log[|log| - 1].text) != Some(s.canonical(log[|log| - 5].certs[0].fingerprint))
  }

  /** Why the export of the CA was given up, from the end of the exchange: something was not
      answered, the configured CA is not a single record with a usable fingerprint, no file can be
      chosen, or the chosen file is gone or is another certificate. */
  ghost predicate NoExport(s: Setup, log: seq<Event>) {
    Unanswered(log) || NoCaRecord(s, log) || NoCaFile(s, log) || CaFileGone(s, log) || OtherCa(s, log)
  }

  /** The CA's export was just requested, between two listings. */
  ghost predicate CaRequested(s: Setup, log: seq<Event>, i: nat, before: map<string, string>, after: map<string, string>,
                              expected: string)
  {
    && 0 < i && |log| == i + 3
    && log[i - 1] == Files(before)
    && log[i].Certs? && log[i].name == s.ca && |log[i].certs| == 1
    && expected == s.canonical(log[i].certs[0].fingerprint) && |expected| == 64
    && log[i + 1] == Sent(ExportCa(if log[i].certs[0].id == "" then s.ca else log[i].certs[0].id))
    && log[i + 2] == Files(after)
  }

  /** Finds the exported file and compares its digest. */
  method FindCaFile(router: Router, s: Setup, before: map<string, string>, after: map<string, string>, expected: string, ghost i: nat)
    returns (r: CaExport)
    requires CaRequested(s, router.log, i, before, after, expected)
    modifies router
    ensures old(router.log) <= router.log && SendsOnly(router.log, |old(router.log)|, {ExportingCa})
    ensures r.Exported? ==> CaExportedAt(s, router.log, i, r.name)
    ensures r == CaFailed ==> NoExport(s, router.log)
    ensures r != CaLost
  {
    hide IsChosen;
    var chosen := ChooseCaFile(s, before.Keys, after.Keys);
    if chosen.None? {
      return CaFailed;
    }
    r := CheckCaFile(router, s, chosen.value, expected);
  }

  /** Exports the CA and checks the export against the configured certificate. */
  method ExportTheCa(router: Router, s: Setup) returns (r: CaExport)
    modifies router
    ensures old(router.log) <= router.log && SendsOnly(router.log, |old(router.log)|, {ExportingCa})
    ensures r.Exported? ==> CaMatches(s, router.log, |old(router.log)|, r.name)
    ensures r == CaFailed ==> NoExport(s, router.log)
    ensures r == CaLost ==> EndsUnowned(router.log)
  {
    hide CaExportedAt, NoCaFile, CaFileGone, OtherCa;
    ghost var start := |router.log|;
    var before := router.ListFiles();
    if before.None? {
      return CaFailed;
    }
    var certs := router.ListCerts(s.ca);
    if certs.None? || |certs.value| != 1 {
      return CaFailed;
    }
    var expected := s.canonical(certs.value[0].fingerprint);
    if |expected| != 64 {
      return CaFailed;
    }
    var reply := router.Send(ExportCa(if certs.value[0].id == "" then s.ca else certs.value[0].id));
    if reply != Done {
      return if reply == Lost then CaLost else CaFailed;
    }
    var after := router.ListFiles();
    if after.None? {
      return CaFailed;
    }
    r := FindCaFile(router, s, before.value, after.value, expected, start + 1);
  }

  /** Makes a fresh export of the CA: earlier exports are deleted first. */
  method EnsureCaExport(router: Router, s: Setup) returns (r: CaExport)
    modifies router
    ensures SendsOnly(router.log, |old(router.log)|, {DeletingFile, ExportingCa})
    ensures old(router.log) <= router.log && DeletesCaFiles(s, router.log, |old(router.log)|)
    ensures r.Exported? ==> CaMatches(s, router.log, |old(router.log)|, r.name)
    ensures r == CaFailed ==> CaFileLeft(s, router.log, |old(router.log)|) || NoExport(s, router.log)
    ensures r == CaLost ==> EndsUnowned(router.log)
  {
    hide DeletesCaFiles, CaFileLeft, CaFilesAreGone, CaMatches, NoCaRecord, NoCaFile, CaFileGone, OtherCa, Unanswered, EndsUnowned, SendsOnly;
    ghost var start := |router.log|;
    var cleared := DeleteCaFiles(router, s);
    ghost var l := router.log;
    NothingSent(l);
    StillSends(l, start, {DeletingFile}, l, {}, {DeletingFile, ExportingCa});
    if cleared == CleanupLost {
      return CaLost;
    }
    if cleared == NotCleaned {
      return CaFailed;
    }
    r := ExportTheCa(router, s);
    StillSends(l, start, {DeletingFile}, router.log, {ExportingCa}, {DeletingFile, ExportingCa});
    NoDeletesAdded(s, l, start, router.log);
    if r.Exported? {
      CaStillMatches(s, router.log, |l|, r.name, router.log, start);
    }
  }

  lemma {:induction false} NoDeletesAdded(s: Setup, log: seq<Event>, start: nat, log': seq<Event>)
    requires DeletesCaFiles(s, log, start) && start < |log| && log <= log' && SendsOnly(log', |log|, {ExportingCa})
    ensures DeletesCaFiles(s, log', start)
  {
    hide IsCaFile;
    assert log'[start] == log[start];
    forall i | start < i < |log'| && log'[i].Sent? && log'[i].request.DeleteFile?
      ensures log'[start].Files? && exists name :: IsCaFile(s, name) && name in log'[start].files
                                                   && log'[start].files[name] == log'[i].request.id
    {
      assert log[i] == log'[i];
    }
  }

  // ----- The client's certificate and key ------------------------------------------------------

  datatype Step = Ongoing | RouterError | LostError

  function StepOf(reply: Reply): Step {
    match reply
    case Done => Ongoing
    case Refused => RouterError
    case Lost => LostError
  }

  ghost predicate HasFile(files: map<string, string>, name: string) {
    name in files && files[name] != ""
  }

  ghost function NamesOf(evidence: seq<Evidence>): set<string> {
    set i | 0 <= i < |evidence| :: evidence[i].name
  }

  /** The log shows a listing without the client's files, their export, and another listing. */
  ghost predicate ClientExported(s: Setup, log: seq<Event>, start: nat, certId: string, files: map<string, string>) {
    && |log| == start + 3 && log[start].Files? && CertFile(s) !in log[start].files && KeyFile(s) !in log[start].files
    && log[start + 1] == Sent(ExportCert(certId)) && log[start + 2] == Files(files)
  }

  /** Captures the ids of both files, the certificate's first. */
  method Capture(s: Setup, files: map<string, string>, certId: string, ghost log: seq<Event>, ghost start: nat)
    returns (identified: set<string>, ids: seq<string>, ghost evidence: seq<Evidence>)
    requires ClientExported(s, log, start, certId, files) && CertFile(s) in files && KeyFile(s) in files
    ensures AllProved(s, log, start, ids, evidence) && identified == NamesOf(evidence)
    ensures ids == if files[CertFile(s)] == "" then [] else if files[KeyFile(s)] == "" then [files[CertFile(s)]]
                   else [files[CertFile(s)], files[KeyFile(s)]]
    ensures identified == if files[CertFile(s)] == "" then {} else if files[KeyFile(s)] == "" then {CertFile(s)}
                          else {CertFile(s), KeyFile(s)}
  {
    hide CertFile, KeyFile, Proves;
    identified, ids, evidence := {}, [], [];
    if files[CertFile(s)] != "" {
      ids, identified := [files[CertFile(s)]], {CertFile(s)};
      evidence := [Evidence(start, start + 1, start + 2, CertFile(s), 0, 0)];
      ClientFileIsProved(s, log, start, certId, files, evidence[0]);
      if files[KeyFile(s)] != "" {
        ids, identified := ids + [files[KeyFile(s)]], identified + {KeyFile(s)};
        evidence := evidence + [Evidence(start, start + 1, start + 2, KeyFile(s), 0, 0)];
        ClientFileIsProved(s, log, start, certId, files, evidence[1]);
        assert NamesOf(evidence) == {evidence[0].name, evidence[1].name};
      }
    }
  }

  lemma {:induction false} ClientFileIsProved(s: Setup, log: seq<Event>, start: nat, certId: string, files: map<string, string>,
                                              e: Evidence)
    requires ClientExported(s, log, start, certId, files)
    requires e.before == start && e.sent == start + 1 && e.seen == start + 2
    requires (e.name == CertFile(s) || e.name == KeyFile(s)) && e.name in files && files[e.name] != ""
    ensures Proves(s, log, start, e, files[e.name])
  {
  }

  lemma {:induction false} ClientFiles(s: Setup)
    ensures forall name :: IsClientFile(s, name) <==> name == CertFile(s) || name == KeyFile(s)
    ensures CertFile(s) == "cert_export_" + s.certName + ".crt" && KeyFile(s) == "cert_export_" + s.certName + ".key"
  {
  }

  /** Why the export of the client's files was given up, from the end of the exchange: something
      was not answered, a name was taken, or a file is not listed with an id. */
  ghost predicate NoClientFiles(s: Setup, log: seq<Event>, start: nat) {
    || Unanswered(log)
    || (|log| == start + 1 && log[start].Files? && exists name :: IsClientFile(s, name) && name in log[start].files)
    || (|log| == start + 3 && log[start + 1].Sent? && log[start + 2].Files? && exists name :: IsClientFile(s, name) && !HasFile(log[start + 2].files, name))
  }

  ghost predicate ListsBoth(s: Setup, e: Event) {
    && e.Files?
    && "cert_export_" + s.certName + ".crt" in e.files && "cert_export_" + s.certName + ".key" in e.files
  }

  /** Requests the export, between two listings. */
  method RequestClientFiles(router: Router, s: Setup, certId: string) returns (step: Step, attempted: bool, files: map<string, string>)
    modifies router
    ensures old(router.log) <= router.log && |router.log| > |old(router.log)|
    ensures SendsOnly(router.log, |old(router.log)|, {ExportingClient})
    ensures attempted <==> |router.log| > |old(router.log)| + 1
    ensures !router.log[|old(router.log)|].Sent?
    ensures if step == Ongoing then ClientExported(s, router.log, |old(router.log)|, certId, files) && CertFile(s) in files && KeyFile(s) in files
            else |router.log| <= |old(router.log)| + 2 || !ListsBoth(s, router.log[|old(router.log)| + 2])
    ensures step == RouterError ==> NoClientFiles(s, router.log, |old(router.log)|)
    ensures step == LostError ==> EndsUnowned(router.log)
  {
    hide CertFile, KeyFile, IsClientFile;
    ClientFiles(s);
    assert IsClientFile(s, CertFile(s)) && IsClientFile(s, KeyFile(s));
    step, attempted, files := RouterError, false, map[];
    var before := router.ListFiles();
    if before.None? || CertFile(s) in before.value || KeyFile(s) in before.value {
      return;
    }
    attempted := true;
    var reply := router.Send(ExportCert(certId));
    if reply != Done {
      step := StepOf(reply);
      return;
    }
    var listed := router.ListFiles();
    if listed.None? || CertFile(s) !in listed.value || KeyFile(s) !in listed.value {
      return;
    }
    step, files := Ongoing, listed.value;
  }

  /** Exports certificate and key, and captures the ids of both files.  names are those that the
      export may have written, identified those whose ids are known. */
  method ExportClient(router: Router, s: Setup, certId: string)
    returns (step: Step, names: set<string>, identified: set<string>, ids: seq<string>, certText: string,
             ghost evidence: seq<Evidence>)
    modifies router
    ensures old(router.log) <= router.log && |router.log| > |old(router.log)|
    ensures SendsOnly(router.log, |old(router.log)|, {ExportingClient})
    ensures AllProved(s, router.log, |old(router.log)|, ids, evidence) && identified == NamesOf(evidence) && identified <= names
    ensures forall n :: n in names <==> |router.log| > |old(router.log)| + 1 && IsClientFile(s, n)
    ensures !router.log[|old(router.log)|].Sent?
    ensures step == Ongoing ==> |router.log| > |old(router.log)| + 1 && |ids| == 2 && identified == names
                                && router.log[|router.log| - 1] == Contents(ids[0], certText)
    ensures step == RouterError ==> NoClientFiles(s, router.log, |old(router.log)|)
    ensures step == LostError ==> EndsUnowned(router.log)
    ensures var end := |old(router.log)| + 2;
            end < |router.log| && ListsBoth(s, router.log[end]) ==>
              var files := router.log[end].files;
              var crt, key := files["cert_export_" + s.certName + ".crt"], files["cert_export_" + s.certName + ".key"];
              ids == if crt == "" then [] else if key == "" then [crt] else [crt, key]
  {
    hide CertFile, KeyFile, IsClientFile, Proves;
    ClientFiles(s);
    names, identified, ids, certText, evidence := {}, {}, [], "", [];
    var attempted, files;
    step, attempted, files := RequestClientFiles(router, s, certId);
    if attempted {
      names := {CertFile(s), KeyFile(s)};
    }
    if step != Ongoing {
      return;
    }
    ghost var l := router.log;
    identified, ids, evidence := Capture(s, files, certId, l, |old(router.log)|);
    if |ids| < 2 {
      step := RouterError;
      return;
    }
    var text := router.ReadFile(ids[0]);
    StillProved(s, l, |old(router.log)|, ids, evidence, router.log);
    if text.None? {
      step := RouterError;
      return;
    }
    certText := text.value;
  }

  // ----- The profile ---------------------------------------------------------------------------

  datatype Found = Found(name: string, id: string, text: string)

  function IdsOf(found: seq<Found>): seq<string> {
    seq(|found|, i requires 0 <= i < |found| => found[i].id)
  }

  function FoundNames(found: seq<Found>): set<string> {
    set i | 0 <= i < |found| :: found[i].name
  }

  /** The export names the CA file that was checked and this run's own certificate and key. */
  ghost predicate RequestsProfile(s: Setup, e: Event, ca: string) {
    e == Sent(ExportProfile(ca, "cert_export_" + s.certName + ".crt", "cert_export_" + s.certName + ".key"))
  }

  ghost predicate IsProfileRequest(e: Event) {
    e.Sent? && e.request.ExportProfile?
  }

  /** The log shows the certificate's contents, and later a listing, the export and another listing. */
  ghost predicate Listed(s: Setup, log: seq<Event>, start: nat, certificate: nat, exported: nat, ca: string,
                         before: map<string, string>, after: map<string, string>, certText: string)
  {
    && start <= certificate < exported - 1 && exported + 2 <= |log|
    && log[certificate].Contents? && log[certificate].text == certText
    && log[exported - 1] == Files(before) && RequestsProfile(s, log[exported], ca) && log[exported + 1] == Files(after)
  }

  ghost predicate ReadSince(log: seq<Event>, since: nat, id: string, text: string) {
    exists k | since <= k < |log| :: log[k] == Contents(id, text)
  }

  lemma {:induction false} StillReadSince(log: seq<Event>, since: nat, id: string, text: string, log': seq<Event>, earlier: nat)
    requires ReadSince(log, since, id, text) && log <= log' && earlier <= since
    ensures ReadSince(log', earlier, id, text)
  {
    var k :| since <= k < |log| && log[k] == Contents(id, text);
    assert log'[k] == log[k];
  }

  /** A profile with an id that the export may have written: it is new. */
  ghost predicate IsCandidate(s: Setup, before: map<string, string>, after: map<string, string>, n: string) {
    n in after && n !in before && s.isProfile(n) && after[n] != ""
  }

  /** The profile was read, and is among the matching ones if it embeds the certificate. */
  ghost predicate Judged(s: Setup, log: seq<Event>, since: nat, n: string, id: string, certText: string, matching: seq<Found>) {
    exists text :: ReadSince(log, since, id, text) && (s.embeds(text, certText) ==> Found(n, id, text) in matching)
  }

  /** Each of the profiles found is a candidate that was read and embeds the certificate. */
  ghost predicate AllMatch(s: Setup, log: seq<Event>, since: nat, before: map<string, string>, after: map<string, string>,
                           certText: string, matching: seq<Found>)
  {
    forall f | f in matching ::
      && IsCandidate(s, before, after, f.name) && f.id == after[f.name]
      && ReadSince(log, since, f.id, f.text) && s.embeds(f.text, certText)
  }

  /** The profiles found are all the candidates of a set of names that embed the certificate. */
  ghost predicate IsMatching(s: Setup, log: seq<Event>, since: nat, before: map<string, string>, after: map<string, string>,
                             certText: string, names: set<string>, matching: seq<Found>)
  {
    && AllMatch(s, log, since, before, after, certText, matching)
    && (forall n | n in names && IsCandidate(s, before, after, n) :: Judged(s, log, since, n, after[n], certText, matching))
    && FoundNames(matching) <= names && |FoundNames(matching)| == |matching|
  }

  ghost predicate AllEvident(s: Setup, log: seq<Event>, start: nat, certificate: nat, matching: seq<Found>, evidence: seq<Evidence>) {
    && AllProved(s, log, start, IdsOf(matching), evidence) && NamesOf(evidence) == FoundNames(matching)
    && forall e | e in evidence :: e.certificate == certificate
  }

  lemma {:induction false} StillMatching(s: Setup, log: seq<Event>, since: nat, before: map<string, string>,
                                         after: map<string, string>, certText: string, names: set<string>, matching: seq<Found>,
                                         log': seq<Event>)
    requires IsMatching(s, log, since, before, after, certText, names, matching) && log <= log'
    ensures IsMatching(s, log', since, before, after, certText, names, matching)
  {
    hide ReadSince, FoundNames;
    forall f | f in matching
      ensures ReadSince(log', since, f.id, f.text)
    {
      StillReadSince(log, since, f.id, f.text, log', since);
    }
    forall n | n in names && IsCandidate(s, before, after, n)
      ensures Judged(s, log', since, n, after[n], certText, matching)
    {
      var text :| ReadSince(log, since, after[n], text) && (s.embeds(text, certText) ==> Found(n, after[n], text) in matching);
      StillReadSince(log, since, after[n], text, log', since);
    }
  }

  lemma {:induction false} NotMatching(s: Setup, log: seq<Event>, since: nat, before: map<string, string>, after: map<string, string>,
                                       certText: string, names: set<string>, matching: seq<Found>, n: string)
    requires IsMatching(s, log, since, before, after, certText, names, matching)
    requires IsCandidate(s, before, after, n) ==> exists text :: ReadSince(log, since, after[n], text) && !s.embeds(text, certText)
    ensures IsMatching(s, log, since, before, after, certText, names + {n}, matching)
  {
    hide ReadSince, AllMatch;
  }

  lemma {:induction false} FoundOneMore(matching: seq<Found>, f: Found)
    requires |FoundNames(matching)| == |matching| && f.name !in FoundNames(matching)
    ensures FoundNames(matching + [f]) == FoundNames(matching) + {f.name} && |FoundNames(matching + [f])| == |matching + [f]|
  {
    var more := matching + [f];
    assert more[|matching|] == f;
    assert forall i | 0 <= i < |matching| :: more[i] == matching[i];
    assert FoundNames(more) == FoundNames(matching) + {f.name};
  }

  lemma {:induction false} OneMoreMatch(s: Setup, log: seq<Event>, since: nat, before: map<string, string>, after: map<string, string>,
                                        certText: string, names: set<string>, matching: seq<Found>, f: Found)
    requires IsMatching(s, log, since, before, after, certText, names, matching) && f.name !in names
    requires IsCandidate(s, before, after, f.name) && f.id == after[f.name]
    requires ReadSince(log, since, f.id, f.text) && s.embeds(f.text, certText)
    ensures IsMatching(s, log, since, before, after, certText, names + {f.name}, matching + [f])
  {
    hide ReadSince, FoundNames;
    FoundOneMore(matching, f);
    forall n | n in names + {f.name} && IsCandidate(s, before, after, n)
      ensures Judged(s, log, since, n, after[n], certText, matching + [f])
    {
      if n == f.name {
        assert f in matching + [f];
      } else {
        var text :| ReadSince(log, since, after[n], text) && (s.embeds(text, certText) ==> Found(n, after[n], text) in matching);
      }
    }
  }

  lemma {:induction false} OneMoreEvident(s: Setup, log: seq<Event>, start: nat, certificate: nat, matching: seq<Found>,
                                          evidence: seq<Evidence>, e: Evidence, f: Found)
    requires AllEvident(s, log, start, certificate, matching, evidence) && |FoundNames(matching)| == |matching|
    requires Proves(s, log, start, e, f.id) && e.name == f.name && e.certificate == certificate && f.name !in FoundNames(matching)
    ensures AllEvident(s, log, start, certificate, matching + [f], evidence + [e])
  {
    hide Proves, AllProved, NamesOf, FoundNames, IdsOf;
    FoundOneMore(matching, f);
    NamedOneMore(evidence, e);
    OneMoreProof(s, log, start, matching, evidence, e, f);
  }

  lemma {:induction false} NamedOneMore(evidence: seq<Evidence>, e: Evidence)
    ensures NamesOf(evidence + [e]) == NamesOf(evidence) + {e.name}
  {
    var more := evidence + [e];
    assert more[|evidence|] == e && forall i | 0 <= i < |evidence| :: more[i] == evidence[i];
  }

  lemma {:induction false} OneMoreProof(s: Setup, log: seq<Event>, start: nat, found: seq<Found>, evidence: seq<Evidence>,
                                        e: Evidence, f: Found)
    requires AllProved(s, log, start, IdsOf(found), evidence) && Proves(s, log, start, e, f.id)
    ensures AllProved(s, log, start, IdsOf(found + [f]), evidence + [e])
  {
    hide Proves;
  }

  lemma {:induction false} NothingFound(s: Setup, log: seq<Event>, since: nat, before: map<string, string>, after: map<string, string>,
                                        certText: string, start: nat, certificate: nat)
    ensures IsMatching(s, log, since, before, after, certText, {}, [])
    ensures AllEvident(s, log, start, certificate, [], [])
  {
  }

  /** Listings before and after the export, and the contents read last. */
  lemma {:induction false} ProfileIsProved(s: Setup, log: seq<Event>, start: nat, certificate: nat, exported: nat, ca: string,
                                           before: map<string, string>, after: map<string, string>, certText: string, e: Evidence)
    requires Listed(s, log, start, certificate, exported, ca, before, after, certText)
    requires e.before == exported - 1 && e.sent == exported && e.seen == exported + 1 && e.certificate == certificate
    requires exported + 1 < e.contents < |log| && IsCandidate(s, before, after, e.name)
    requires log[e.contents].Contents? && log[e.contents].id == after[e.name] && s.embeds(log[e.contents].text, certText)
    ensures Proves(s, log, start, e, after[e.name])
  {
  }

  lemma {:induction false} StillListed(s: Setup, log: seq<Event>, start: nat, certificate: nat, exported: nat, ca: string,
                                       before: map<string, string>, after: map<string, string>, certText: string, log': seq<Event>)
    requires Listed(s, log, start, certificate, exported, ca, before, after, certText) && log <= log'
    ensures Listed(s, log', start, certificate, exported, ca, before, after, certText)
  {
    hide RequestsProfile;
    assert forall i | 0 <= i < |log| :: log'[i] == log[i];
  }

  /** Reads one candidate; if it embeds the certificate, it is one of the matching profiles. */
  method JudgeProfile(router: Router, s: Setup, n: string, before: map<string, string>, after: map<string, string>, certText: string,
                      matching: seq<Found>, ghost evidence: seq<Evidence>, ghost names: set<string>, ghost ca: string,
                      ghost start: nat, ghost certificate: nat, ghost exported: nat)
    returns (failed: bool, matching': seq<Found>, ghost evidence': seq<Evidence>)
    requires n !in names && IsCandidate(s, before, after, n)
    requires Listed(s, router.log, start, certificate, exported, ca, before, after, certText)
    requires IsMatching(s, router.log, exported + 2, before, after, certText, names, matching)
    requires AllEvident(s, router.log, start, certificate, matching, evidence)
    modifies router
    ensures old(router.log) <= router.log && |router.log| == |old(router.log)| + 1 && !router.log[|old(router.log)|].Sent?
    ensures if failed then Unanswered(router.log)
            else IsMatching(s, router.log, exported + 2, before, after, certText, names + {n}, matching')
                 && AllEvident(s, router.log, start, certificate, matching', evidence')
  {
    hide Listed, Proves, AllProved, IsMatching, AllEvident, IdsOf;
    failed, matching', evidence' := false, matching, evidence;
    ghost var l := router.log;
    CandidateHasId(s, before, after, n);
    ListedIsShort(s, l, start, certificate, exported, ca, before, after, certText);
    var text := router.ReadFile(after[n]);
    if text.None? {
      failed := true;
      return;
    }
    StillListed(s, l, start, certificate, exported, ca, before, after, certText, router.log);
    StillMatching(s, l, exported + 2, before, after, certText, names, matching, router.log);
    StillEvident(s, l, start, certificate, matching, evidence, router.log);
    assert router.log[|l|] == Contents(after[n], text.value);
    assert ReadSince(router.log, exported + 2, after[n], text.value);
    if s.embeds(text.value, certText) {
      var f := Found(n, after[n], text.value);
      ghost var e := Evidence(exported - 1, exported, exported + 1, n, |l|, certificate);
      ProfileIsProved(s, router.log, start, certificate, exported, ca, before, after, certText, e);
      MatchesAreNamed(s, router.log, exported + 2, before, after, certText, names, matching);
      OneMoreEvident(s, router.log, start, certificate, matching, evidence, e, f);
      OneMoreMatch(s, router.log, exported + 2, before, after, certText, names, matching, f);
      matching', evidence' := matching + [f], evidence + [e];
    } else {
      NotMatching(s, router.log, exported + 2, before, after, certText, names, matching, n);
    }
  }

  lemma {:induction false} CandidateHasId(s: Setup, before: map<string, string>, after: map<string, string>, n: string)
    requires IsCandidate(s, before, after, n)
    ensures n in after && after[n] != ""
  {
  }

  lemma {:induction false} ListedIsShort(s: Setup, log: seq<Event>, start: nat, certificate: nat, exported: nat, ca: string,
                                         before: map<string, string>, after: map<string, string>, certText: string)
    requires Listed(s, log, start, certificate, exported, ca, before, after, certText)
    ensures 0 < exported && exported + 2 <= |log|
  {
  }

  lemma {:induction false} MatchesAreNamed(s: Setup, log: seq<Event>, since: nat, before: map<string, string>, after: map<string, string>,
                                           certText: string, names: set<string>, matching: seq<Found>)
    requires IsMatching(s, log, since, before, after, certText, names, matching)
    ensures FoundNames(matching) <= names && |FoundNames(matching)| == |matching|
  {
  }

  lemma {:induction false} StillEvident(s: Setup, log: seq<Event>, start: nat, certificate: nat, matching: seq<Found>,
                                        evidence: seq<Evidence>, log': seq<Event>)
    requires AllEvident(s, log, start, certificate, matching, evidence) && log <= log'
    ensures AllEvident(s, log', start, certificate, matching, evidence)
  {
    StillProved(s, log, start, IdsOf(matching), evidence, log');
  }

  /** Goes on with one more of the names listed after the export. */
  method VisitProfile(router: Router, s: Setup, n: string, before: map<string, string>, after: map<string, string>, certText: string,
                      matching: seq<Found>, ghost evidence: seq<Evidence>, ghost names: set<string>, ghost ca: string,
                      ghost start: nat, ghost certificate: nat, ghost exported: nat)
    returns (failed: bool, matching': seq<Found>, ghost evidence': seq<Evidence>)
    requires n in after && n !in names
    requires Listed(s, router.log, start, certificate, exported, ca, before, after, certText)
    requires IsMatching(s, router.log, exported + 2, before, after, certText, names, matching)
    requires AllEvident(s, router.log, start, certificate, matching, evidence)
    modifies router
    ensures old(router.log) <= router.log && SendsOnly(router.log, |old(router.log)|, {})
    ensures Listed(s, router.log, start, certificate, exported, ca, before, after, certText)
    ensures if failed then Unanswered(router.log)
            else IsMatching(s, router.log, exported + 2, before, after, certText, names + {n}, matching')
                 && AllEvident(s, router.log, start, certificate, matching', evidence')
  {
    hide Listed, IsMatching, AllEvident;
    failed, matching', evidence' := false, matching, evidence;
    ghost var l := router.log;
    if n !in before && s.isProfile(n) && after[n] != "" {
      failed, matching', evidence' := JudgeProfile(router, s, n, before, after, certText, matching, evidence, names, ca, start, certificate, exported);
      StillListed(s, l, start, certificate, exported, ca, before, after, certText, router.log);
    } else {
      NotMatching(s, router.log, exported + 2, before, after, certText, names, matching, n);
    }
  }

  /** The new profiles that embed the certificate, among those listed after the export. */
  method MatchProfiles(router: Router, s: Setup, before: map<string, string>, after: map<string, string>, certText: string,
                       ghost ca: string, ghost start: nat, ghost certificate: nat, ghost exported: nat)
    returns (failed: bool, matching: seq<Found>, ghost evidence: seq<Evidence>)
    requires Listed(s, router.log, start, certificate, exported, ca, before, after, certText)
    modifies router
    ensures old(router.log) <= router.log && SendsOnly(router.log, |old(router.log)|, {})
    ensures failed ==> Unanswered(router.log)
    ensures !failed ==> IsMatching(s, router.log, exported + 2, before, after, certText, after.Keys, matching)
                        && AllEvident(s, router.log, start, certificate, matching, evidence)
  {
    hide Listed, IsMatching, AllEvident, SendsOnly, Unanswered;
    matching, evidence, failed := [], [], false;
    NothingFound(s, router.log, exported + 2, before, after, certText, start, certificate);
    NothingSent(router.log);
    var todo, names := after.Keys, {};
    while todo != {}
      invariant old(router.log) <= router.log && SendsOnly(router.log, |old(router.log)|, {})
      invariant forall n :: n in after <==> n in names || n in todo
      invariant forall n | n in todo :: n !in names
      invariant Listed(s, router.log, start, certificate, exported, ca, before, after, certText)
      invariant IsMatching(s, router.log, exported + 2, before, after, certText, names, matching)
      invariant AllEvident(s, router.log, start, certificate, matching, evidence)
      decreases |todo|
    {
      var n: string :| n in todo;
      todo := todo - {n};
      ghost var l := router.log;
      failed, matching, evidence := VisitProfile(router, s, n, before, after, certText, matching, evidence, names, ca, start, certificate, exported);
      StillSends(l, |old(router.log)|, {}, router.log, {}, {});
      if failed {
        return;
      }
      names := names + {n};
    }
    assert names == after.Keys;
  }

  /** What the clean-up needs to know about the profile export. */
  datatype ProfileExport = ProfileExport(attempted: bool, baseline: set<string>, names: set<string>, identified: bool)

  /** The profiles found after the export at this position are not exactly one. */
  ghost predicate NotOneProfile(s: Setup, log: seq<Event>, exported: nat, certText: string, matching: seq<Found>) {
    && |matching| != 1 && 0 < exported && exported + 1 < |log|
    && log[exported - 1].Files? && IsProfileRequest(log[exported]) && log[exported + 1].Files?
    && IsMatching(s, log, exported + 2, log[exported - 1].files, log[exported + 1].files, certText,
                  log[exported + 1].files.Keys, matching)
  }

  ghost predicate NoProfile(s: Setup, log: seq<Event>, exported: nat, certText: string) {
    Unanswered(log) || exists matching :: NotOneProfile(s, log, exported, certText, matching)
  }

  /** Requests the export, between two listings. */
  method RequestProfile(router: Router, s: Setup, ca: string)
    returns (step: Step, attempted: bool, before: map<string, string>, after: map<string, string>)
    modifies router
    ensures old(router.log) <= router.log && |router.log| > |old(router.log)| && SendsOnly(router.log, |old(router.log)|, {ExportingProfile})
    ensures attempted <==> |router.log| > |old(router.log)| + 1
    ensures attempted ==> router.log[|old(router.log)|] == Files(before)
    ensures !router.log[|old(router.log)|].Sent?
    ensures forall i | |old(router.log)| <= i < |router.log| && router.log[i].Sent? :: i == |old(router.log)| + 1
    ensures step == Ongoing ==> attempted && |router.log| == |old(router.log)| + 3
                                && RequestsProfile(s, router.log[|old(router.log)| + 1], ca)
                                && router.log[|old(router.log)| + 2] == Files(after)
    ensures step == RouterError ==> Unanswered(router.log)
    ensures step == LostError ==> EndsUnowned(router.log)
  {
    step, attempted, before, after := RouterError, false, map[], map[];
    var listed := router.ListFiles();
    if listed.None? {
      return;
    }
    attempted, before := true, listed.value;
    var reply := router.Send(ExportProfile(ca, CertFile(s), KeyFile(s)));
    if reply != Done {
      step := StepOf(reply);
      return;
    }
    listed := router.ListFiles();
    if listed.Some? {
      step, after := Ongoing, listed.value;
    }
  }

  /** Exports the profile and captures the one that embeds this run's certificate.  When there is
      not exactly one, all that embed it are captured for the clean-up. */
  method ExportClientProfile(router: Router, s: Setup, ca: string, certText: string, ghost start: nat, ghost certificate: nat)
    returns (step: Step, export_: ProfileExport, ids: seq<string>, text: string, ghost evidence: seq<Evidence>)
    requires start <= certificate < |router.log|
    requires router.log[certificate].Contents? && router.log[certificate].text == certText
    modifies router
    ensures old(router.log) <= router.log && |router.log| > |old(router.log)| && SendsOnly(router.log, |old(router.log)|, {ExportingProfile})
    ensures AllProved(s, router.log, start, ids, evidence) && export_.names == NamesOf(evidence)
    ensures export_.attempted <==> |router.log| > |old(router.log)| + 1
    ensures export_.attempted ==> var listed := router.log[|old(router.log)|];
                                  listed.Files? && forall n :: n in export_.baseline <==> n in listed.files && s.isProfile(n)
    ensures forall i | |old(router.log)| <= i < |router.log| && router.log[i].Sent? :: i == |old(router.log)| + 1
    ensures step == Ongoing <==> export_.identified
    ensures step == Ongoing ==>
              && |ids| == 1 && evidence[0].certificate == certificate
              && |router.log| > |old(router.log)| + 1 && RequestsProfile(s, router.log[|old(router.log)| + 1], ca)
              && ReadSince(router.log, |old(router.log)|, ids[0], text)
    ensures step == RouterError ==> NoProfile(s, router.log, |old(router.log)| + 1, certText)
    ensures step == LostError ==> EndsUnowned(router.log)
  {
    hide Proves, ReadSince, IdsOf, IsMatching, FoundNames, NamesOf, RequestsProfile, SendsOnly, Unanswered, EndsUnowned, AllProved;
    export_, ids, text, evidence := ProfileExport(false, {}, {}, false), [], "", [];
    NothingCaptured(s);
    var attempted, before, after;
    step, attempted, before, after := RequestProfile(router, s, ca);
    if attempted {
      export_ := ProfileExport(true, set n | n in before && s.isProfile(n), {}, false);
    }
    if step != Ongoing {
      return;
    }
    ghost var l := router.log;
    ghost var sent := |old(router.log)| + 1;
    assert l[certificate] == old(router.log)[certificate];
    assert IsProfileRequest(l[sent]);
    var failed, matching;
    ghost var found;
    failed, matching, found := MatchProfiles(router, s, before, after, certText, ca, start, certificate, sent);
    SentBefore(l, router.log);
    StillSends(l, |old(router.log)|, {ExportingProfile}, router.log, {}, {ExportingProfile});
    if failed {
      step := RouterError;
      return;
    }
    ids, evidence := IdsOf(matching), found;
    export_ := export_.(names := FoundNames(matching));
    if |matching| != 1 {
      assert NotOneProfile(s, router.log, sent, certText, matching);
      step := RouterError;
      return;
    }
    TheOnlyMatch(s, router.log, sent + 2, before, after, certText, start, certificate, matching, evidence);
    StillReadSince(router.log, sent + 2, ids[0], matching[0].text, router.log, |old(router.log)|);
    export_, text := export_.(identified := true), matching[0].text;
  }

  lemma {:induction false} SentBefore(log: seq<Event>, log': seq<Event>)
    requires log <= log' && SendsOnly(log', |log|, {})
    ensures forall i | 0 <= i < |log'| && log'[i].Sent? :: i < |log| && log[i] == log'[i]
  {
  }

  lemma {:induction false} NothingCaptured(s: Setup)
    ensures NamesOf([]) == {} && forall log, start :: AllProved(s, log, start, [], [])
  {
  }

  lemma {:induction false} TheOnlyMatch(s: Setup, log: seq<Event>, since: nat, before: map<string, string>, after: map<string, string>,
                                        certText: string, start: nat, certificate: nat, matching: seq<Found>, evidence: seq<Evidence>)
    requires |matching| == 1 && IsMatching(s, log, since, before, after, certText, after.Keys, matching)
    requires AllEvident(s, log, start, certificate, matching, evidence)
    ensures |IdsOf(matching)| == |evidence| == 1 && ReadSince(log, since, IdsOf(matching)[0], matching[0].text)
    ensures evidence[0].certificate == certificate
  {
    hide ReadSince, Proves;
    assert matching[0] in matching && evidence[0] in evidence;
  }
}
