/** Provisioning a client profile, and cleaning up after it, against an unreliable router.

    Whatever the router answers: a profile is delivered only if every temporary file was read back
    absent, the final clean-up deletes only files and certificates shown to be this run's own, and a
    reported removal of the certificate was read back.  A run that does not deliver a profile has a
    reason in the exchange with the router.
 */
module Provisioning {
  import opened ProvisionRouter
  import opened ProvisionCleanup
  import opened ProvisionExport
  import HardenProfile
  import opened Wrappers

  // ----- The certificate -----------------------------------------------------------------------

  /** The certificate was created under its name, then signed by the configured CA, then trusted. */
  ghost predicate SignedAndTrusted(s: Setup, log: seq<Event>, start: nat, certId: string) {
    && start < |log| && log[start] == Sent(CreateCert(s.certName, s.commonName))
    && exists i | start < i < |log| - 1 :: log[i] == Sent(Sign(certId, s.ca)) && log[i + 1] == Sent(Trust(certId))
  }

  /** The event shows the id of this run's certificate: the creation was answered with it, or it is
      the only record listed. */
  ghost predicate ShowsCertificate(s: Setup, e: Event, id: string) {
    && id != ""
    && (e == Created(id)
        || (e.Certs? && e.name == s.certName && ((|e.certs| == 1 && e.certs[0].id == id) || OnlyNamed(e.certs, s.certName, id))))
  }

  ghost predicate IsOwnCertificate(s: Setup, log: seq<Event>, start: nat, id: string) {
    exists j | start <= j < |log| :: ShowsCertificate(s, log[j], id)
  }

  lemma {:induction false} StillOwnCertificate(s: Setup, log: seq<Event>, start: nat, id: string, log': seq<Event>)
    requires IsOwnCertificate(s, log, start, id) && log <= log'
    ensures IsOwnCertificate(s, log', start, id)
  {
    hide ShowsCertificate;
    var j :| start <= j < |log| && ShowsCertificate(s, log[j], id);
    assert log'[j] == log[j];
  }

  /** What is known of the certificate's id after its creation. */
  ghost predicate KnowsId(s: Setup, log: seq<Event>, start: nat, certId: string) {
    && (certId != "" ==> IsOwnCertificate(s, log, start, certId))
    && (start + 1 < |log| && log[start + 1].Created? && log[start + 1].id != "" ==> certId == log[start + 1].id)
    && (start + 2 < |log| && log[start + 1] == Created("") && log[start + 2].Certs? && |log[start + 2].certs| == 1 ==>
          certId == log[start + 2].certs[0].id)
  }

  lemma {:induction false} StillKnowsId(s: Setup, log: seq<Event>, start: nat, certId: string, log': seq<Event>)
    requires KnowsId(s, log, start, certId) && log <= log'
    requires |log| > start + 2 || (|log| == start + 2 && log[start + 1] == Created(certId) && certId != "")
    ensures KnowsId(s, log', start, certId)
  {
    hide IsOwnCertificate;
    assert forall i | 0 <= i < |log| :: log'[i] == log[i];
    if certId != "" {
      StillOwnCertificate(s, log, start, certId, log');
    }
  }

  /** Why there is no new certificate, from the end of the exchange. */
  ghost predicate NoNewCertificate(s: Setup, log: seq<Event>, start: nat) {
    || Unanswered(log)
    || (|log| == start + 3 && log[start + 2].Certs? && log[start + 2].name == s.certName && |log[start + 2].certs| != 1)
  }

  /** Creates the certificate and finds its id. */
  method CreateCertificate(router: Router, s: Setup) returns (step: Step, certId: string)
    modifies router
    ensures old(router.log) <= router.log && SendsOnly(router.log, |old(router.log)|, {Creating})
    ensures KnowsId(s, router.log, |old(router.log)|, certId)
    ensures step == Ongoing ==>
              var start := |old(router.log)|;
              && (|router.log| == start + 3 || (|router.log| == start + 2 && router.log[start + 1] == Created(certId) && certId != ""))
              && router.log[start] == Sent(CreateCert(s.certName, s.commonName))
    ensures step == RouterError ==> NoNewCertificate(s, router.log, |old(router.log)|)
    ensures step == LostError ==> EndsUnowned(router.log)
  {
    ghost var start := |router.log|;
    var created;
    created, certId := router.Create(s.certName, s.commonName);
    if created != Done {
      return StepOf(created), "";
    }
    assert router.log[start] == Sent(CreateCert(s.certName, s.commonName)) && router.log[start + 1] == Created(certId);
    if certId == "" {
      var matches := router.ListCerts(s.certName);
      if matches.None? || |matches.value| != 1 {
        return RouterError, "";
      }
      certId := matches.value[0].id;
      assert router.log[start + 2] == Certs(s.certName, matches.value);
    }
    step := Ongoing;
  }

  /** Creates, signs and trusts the certificate.  The id may be unknown when a step fails. */
  method NewCertificate(router: Router, s: Setup) returns (step: Step, certId: string)
    modifies router
    ensures old(router.log) <= router.log && SendsOnly(router.log, |old(router.log)|, {Creating})
    ensures KnowsId(s, router.log, |old(router.log)|, certId)
    ensures step == Ongoing ==> |router.log| > |old(router.log)| + 3 && SignedAndTrusted(s, router.log, |old(router.log)|, certId)
                                && router.log[|router.log| - 1] == Sent(Trust(certId))
    ensures step == RouterError ==> NoNewCertificate(s, router.log, |old(router.log)|)
    ensures step == LostError ==> EndsUnowned(router.log)
  {
    hide KnowsId;
    ghost var start := |router.log|;
    step, certId := CreateCertificate(router, s);
    if step != Ongoing {
      return;
    }
    ghost var l := router.log;
    var signed := router.Send(Sign(certId, s.ca));
    StillKnowsId(s, l, start, certId, router.log);
    if signed != Done {
      return StepOf(signed), certId;
    }
    ghost var i := |router.log| - 1;
    var trusted := router.Send(Trust(certId));
    StillKnowsId(s, l, start, certId, router.log);
    if trusted == Done {
      assert router.log[i] == Sent(Sign(certId, s.ca)) && router.log[i + 1] == Sent(Trust(certId));
    }
    step := StepOf(trusted);
  }

  /** What a delivered profile requires of its certificate's record, field by field. */
  ghost predicate Genuine(s: Setup, certId: string, c: Cert) {
    && c.id == certId != "" && c.name == s.certName && c.commonName == s.commonName && c.ca == s.ca
    && c.fingerprint != ""
    && (c.trusted.Some? ==> c.trusted.value) && (c.revoked.Some? ==> !c.revoked.value)
    && c.readableExpiry && !c.remaining.Unreadable? && (c.remaining.Seconds? ==> c.remaining.seconds >= 1)
  }

  /** The log shows one record of the certificate's name, which is genuine and has the fingerprint. */
  ghost predicate CertVerified(s: Setup, log: seq<Event>, start: nat, certId: string, fingerprint: string) {
    exists i | start <= i < |log| ::
      && log[i].Certs? && log[i].name == s.certName && |log[i].certs| == 1
      && Genuine(s, certId, log[i].certs[0]) && log[i].certs[0].fingerprint == fingerprint
  }

  lemma {:induction false} VerifiedAt(s: Setup, log: seq<Event>, i: nat, certId: string)
    requires i < |log| && log[i].Certs? && log[i].name == s.certName && |log[i].certs| == 1 && Genuine(s, certId, log[i].certs[0])
    ensures CertVerified(s, log, i, certId, log[i].certs[0].fingerprint)
  {
    hide Genuine;
  }

  lemma {:induction false} StillVerified(s: Setup, log: seq<Event>, start: nat, certId: string, fingerprint: string,
                                         log': seq<Event>, earlier: nat)
    requires CertVerified(s, log, start, certId, fingerprint) && log <= log' && earlier <= start
    ensures CertVerified(s, log', earlier, certId, fingerprint)
  {
    hide Genuine;
    var i :| start <= i < |log| && log[i].Certs? && log[i].name == s.certName && |log[i].certs| == 1
             && Genuine(s, certId, log[i].certs[0]) && log[i].certs[0].fingerprint == fingerprint;
    assert log'[i] == log[i];
  }

  /** The event is the answer that makes the certificate acceptable. */
  ghost predicate Accepts(s: Setup, e: Event, certId: string) {
    e.Certs? && e.name == s.certName && |e.certs| == 1 && Genuine(s, certId, e.certs[0])
  }

  /** Reads the certificate back.  It is accepted exactly if the only record of its name is genuine. */
  method CheckCertificate(router: Router, s: Setup, certId: string) returns (fingerprint: Option<string>)
    modifies router
    ensures old(router.log) <= router.log && |router.log| == |old(router.log)| + 1
    ensures var read := router.log[|old(router.log)|];
            && (read.Failed? || (read.Certs? && read.name == s.certName))
            && (fingerprint.Some? <==> Accepts(s, read, certId))
    ensures fingerprint.Some? ==> CertVerified(s, router.log, |old(router.log)|, certId, fingerprint.value)
  {
    var certs := router.ListCerts(s.certName);
    if certs.None? || |certs.value| != 1 {
      return None;
    }
    assert router.log[|old(router.log)|] == Certs(s.certName, certs.value);
    var certificate := certs.value[0];
    // A certificate without a known id is never the same as a record without one.
    if certId == "" || certificate.id != certId || certificate.name != s.certName || certificate.commonName != s.commonName {
      return None;
    }
    if certificate.fingerprint == "" {
      return None;
    }
    if certificate.ca != s.ca {
      return None;
    }
    if certificate.trusted == Some(false) {
      return None;
    }
    if certificate.revoked == Some(true) {
      return None;
    }
    if !certificate.readableExpiry || certificate.remaining.Unreadable? {
      return None;
    }
    if certificate.remaining.Seconds? && certificate.remaining.seconds <= 0 {
      return None;
    }
    fingerprint := Some(certificate.fingerprint);
    VerifiedAt(s, router.log, |old(router.log)|, certId);
  }

  // ----- Issuing -------------------------------------------------------------------------------

  /** What the first half of a run hands to the clean-up. */
  datatype Attempt = Attempt(certId: string, names: set<string>, identified: set<string>, ids: seq<string>,
                             profile: ProfileExport)

  /** Where in the exchange the exports of the client's files, of the CA and of the profile begin. */
  datatype Course = Course(files: nat, ca: nat, profile: nat)

  /** Every file deleted so far is a CA export listed at the position. */
  ghost predicate Explained(s: Setup, log: seq<Event>, start: nat, ca: nat) {
    forall i | start <= i < |log| && log[i].Sent? && log[i].request.DeleteFile? ::
      ca < i && log[ca].Files? && exists name :: IsCaFile(s, name) && name in log[ca].files
                                                 && log[ca].files[name] == log[i].request.id
  }

  /** Before the export of the CA nothing is deleted, so any position explains it. */
  lemma {:induction false} NothingExplained(s: Setup, log: seq<Event>, start: nat, kinds: set<Kind>, ca: nat)
    requires SendsOnly(log, start, kinds) && DeletingFile !in kinds
    ensures Explained(s, log, start, ca)
  {
  }

  lemma {:induction false} ExplainedByCa(s: Setup, log: seq<Event>, log': seq<Event>, start: nat, kinds: set<Kind>)
    requires start <= |log| && log <= log' && SendsOnly(log, start, kinds) && DeletingFile !in kinds && DeletesCaFiles(s, log', |log|)
    ensures Explained(s, log', start, |log|)
  {
    assert forall i | start <= i < |log| :: log'[i] == log[i];
  }

  lemma {:induction false} StillExplained(s: Setup, log: seq<Event>, start: nat, ca: nat, log': seq<Event>, kinds: set<Kind>)
    requires Explained(s, log, start, ca) && log <= log' && SendsOnly(log', |log|, kinds) && DeletingFile !in kinds
    ensures Explained(s, log', start, ca)
  {
    hide IsCaFile;
    forall i | start <= i < |log'| && log'[i].Sent? && log'[i].request.DeleteFile?
      ensures ca < i && log'[ca].Files? && exists name :: IsCaFile(s, name) && name in log'[ca].files
                                                          && log'[ca].files[name] == log'[i].request.id
    {
      assert log'[i] == log[i] && log'[ca] == log[ca];
    }
  }

  /** Once the client's export was requested, both of its names are looked after. */
  ghost predicate TracksFiles(s: Setup, log: seq<Event>, start: nat, a: Attempt) {
    && (!SendsOnly(log, start, {Creating}) ==> forall n | IsClientFile(s, n) :: n in a.names)
    && a.identified <= a.names && forall n | n in a.names && n !in a.identified :: IsClientFile(s, n)
  }

  lemma {:induction false} Tracked(s: Setup, log: seq<Event>, start: nat, log': seq<Event>, a: Attempt)
    requires SendsOnly(log, start, {Creating}) && start <= |log| && log <= log' && |log'| > |log| && !log'[|log|].Sent?
    requires forall n :: n in a.names <==> |log'| > |log| + 1 && IsClientFile(s, n)
    requires a.identified <= a.names
    ensures TracksFiles(s, log', start, a)
  {
    hide IsClientFile;
    if |log'| == |log| + 1 {
      StillSends(log, start, {Creating}, log', {}, {Creating});
    }
  }

  lemma {:induction false} NothingTracked(s: Setup, log: seq<Event>, start: nat, a: Attempt)
    requires SendsOnly(log, start, {Creating}) && a.names == a.identified == {}
    ensures TracksFiles(s, log, start, a)
  {
  }

  lemma {:induction false} MoreKinds(log: seq<Event>, start: nat, kinds: set<Kind>, all: set<Kind>)
    requires SendsOnly(log, start, kinds) && kinds <= all
    ensures SendsOnly(log, start, all)
  {
  }

  lemma {:induction false} TrackedFromNowOn(s: Setup, log: seq<Event>, start: nat, a: Attempt)
    requires a.identified <= a.names && forall n :: n in a.names <==> IsClientFile(s, n)
    ensures TracksFiles(s, log, start, a)
  {
  }

  /** Once the profile's export was requested, the profiles listed right before it are known. */
  ghost predicate TracksProfiles(s: Setup, log: seq<Event>, start: nat, a: Attempt) {
    forall i | start < i < |log| && log[i].Sent? && log[i].request.ExportProfile? ::
      a.profile.attempted && log[i - 1].Files? && forall n :: n in a.profile.baseline <==> n in log[i - 1].files && s.isProfile(n)
  }

  /** Why there are no files to export a profile with, from the end of the exchange. */
  ghost predicate NotPrepared(s: Setup, log: seq<Event>, start: nat, c: Course) {
    || NoNewCertificate(s, log, start)
    || (start < c.files <= |log| && log[c.files - 1].Sent? && log[c.files - 1].request.Trust? && NoClientFiles(s, log, c.files))
    || (start < c.ca <= |log| && log[c.ca - 1].Contents? && (CaFileLeft(s, log, c.ca) || NoExport(s, log)))
  }

  /** The first part: the certificate, its files and the CA. */
  method Prepare(router: Router, s: Setup)
    returns (step: Step, a: Attempt, certText: string, ca: string, ghost evidence: seq<Evidence>, ghost c: Course)
    modifies router
    ensures old(router.log) <= router.log && Explained(s, router.log, |old(router.log)|, c.ca)
    ensures SendsOnly(router.log, |old(router.log)|, {Creating, ExportingClient, DeletingFile, ExportingCa})
    ensures AllProved(s, router.log, |old(router.log)|, a.ids, evidence) && a.identified == NamesOf(evidence)
    ensures TracksFiles(s, router.log, |old(router.log)|, a) && a.profile == ProfileExport(false, {}, {}, false)
    ensures KnowsId(s, router.log, |old(router.log)|, a.certId)
    ensures step == Ongoing ==>
              && |a.ids| == 2 && CaMatches(s, router.log, |old(router.log)|, ca) && (forall n | IsClientFile(s, n) :: n in a.names)
              && SignedAndTrusted(s, router.log, |old(router.log)|, a.certId)
              && |old(router.log)| < c.ca <= |router.log| && router.log[c.ca - 1] == Contents(a.ids[0], certText)
    ensures step == RouterError ==> NotPrepared(s, router.log, |old(router.log)|, c)
    ensures step == LostError ==> EndsUnowned(router.log)
  {
    hide TracksFiles, SendsOnly, IsClientFile, CaMatches, SignedAndTrusted, Explained, DeletesCaFiles, KnowsId, AllProved, NamesOf, NoNewCertificate, NoClientFiles, CaFileLeft, NoExport, EndsUnowned;
    ghost var start := |router.log|;
    evidence, c, certText, ca := [], Course(0, 0, 0), "", "";
    a := Attempt("", {}, {}, [], ProfileExport(false, {}, {}, false));
    NothingCaptured(s);
    var certId;
    step, certId := NewCertificate(router, s);
    a := a.(certId := certId);
    ghost var l1 := router.log;
    NothingExplained(s, l1, start, {Creating}, 0);
    MoreKinds(l1, start, {Creating}, {Creating, ExportingClient, DeletingFile, ExportingCa});
    NothingTracked(s, l1, start, a);
    if step != Ongoing {
      return;
    }
    c := c.(files := |l1|);
    var names, identified, ids;
    step, names, identified, ids, certText, evidence := ExportClient(router, s, certId);
    a := a.(names := names, identified := identified, ids := ids);
    ghost var l2 := router.log;
    StillKnowsId(s, l1, start, certId, l2);
    ProvedFromEarlier(s, l2, |l1|, start, ids, evidence);
    StillSends(l1, start, {Creating}, l2, {ExportingClient}, {Creating, ExportingClient});
    NothingExplained(s, l2, start, {Creating, ExportingClient}, 0);
    Tracked(s, l1, start, l2, a);
    MoreKinds(l2, start, {Creating, ExportingClient}, {Creating, ExportingClient, DeletingFile, ExportingCa});
    if step != Ongoing {
      return;
    }
    c := c.(ca := |l2|);
    var exported := EnsureCaExport(router, s);
    StillKnowsId(s, l2, start, certId, router.log);
    ExplainedByCa(s, l2, router.log, start, {Creating, ExportingClient});
    StillProved(s, l2, start, ids, evidence, router.log);
    TrackedFromNowOn(s, router.log, start, a);
    StillSends(l2, start, {Creating, ExportingClient}, router.log, {DeletingFile, ExportingCa}, {Creating, ExportingClient, DeletingFile, ExportingCa});
    assert router.log[|l2| - 1] == l2[|l2| - 1];
    if !exported.Exported? {
      step := if exported == CaLost then LostError else RouterError;
      return;
    }
    ca := exported.name;
    CaStillMatches(s, router.log, |l2|, ca, router.log, start);
    StillSigned(s, l1, start, certId, router.log);
  }

  lemma {:induction false} StillSigned(s: Setup, log: seq<Event>, start: nat, certId: string, log': seq<Event>)
    requires SignedAndTrusted(s, log, start, certId) && log <= log'
    ensures SignedAndTrusted(s, log', start, certId)
  {
    var i :| start < i < |log| - 1 && log[i] == Sent(Sign(certId, s.ca)) && log[i + 1] == Sent(Trust(certId));
    assert log'[i] == log[i] && log'[i + 1] == log[i + 1];
  }

  lemma {:induction false} ProvedFromEarlier(s: Setup, log: seq<Event>, start: nat, earlier: nat, ids: seq<string>,
                                             evidence: seq<Evidence>)
    requires AllProved(s, log, start, ids, evidence) && earlier <= start
    ensures AllProved(s, log, earlier, ids, evidence)
  {
    forall i | 0 <= i < |ids|
      ensures Proves(s, log, earlier, evidence[i], ids[i])
    {
      assert Proves(s, log, start, evidence[i], ids[i]);
    }
  }

  /** The profile delivered is the hardened text of a file this run captured. */
  ghost predicate ProfileFrom(s: Setup, log: seq<Event>, start: nat, id: string, profile: string) {
    exists i | start <= i < |log| ::
      log[i].Contents? && log[i].id == id && HardenProfile.Harden(s.harden, log[i].text) == HardenProfile.Ok(profile)
  }

  /** The certificate that the delivered profile embeds was read from this run's certificate file. */
  ghost predicate EmbedsOwnCertificate(log: seq<Event>, ids: seq<string>, evidence: seq<Evidence>) {
    && |ids| == |evidence| == 3 && evidence[2].certificate < |log|
    && log[evidence[2].certificate].Contents? && log[evidence[2].certificate].id == ids[0]
  }

  /** The export of the profile named the CA file whose contents were checked. */
  ghost predicate ExportsWithCheckedCa(s: Setup, log: seq<Event>, start: nat, c: Course, ca: string) {
    c.profile + 1 < |log| && RequestsProfile(s, log[c.profile + 1], ca) && CaMatches(s, log, start, ca)
  }

  datatype Issued = Issued(text: string, fingerprint: string)

  /** Everything that a delivered profile rests on. */
  ghost predicate Sound(s: Setup, log: seq<Event>, start: nat, c: Course, certId: string, ids: seq<string>, evidence: seq<Evidence>,
                        issued: Issued)
  {
    && EmbedsOwnCertificate(log, ids, evidence) && ProfileFrom(s, log, start, ids[2], issued.text)
    && CertVerified(s, log, start, certId, issued.fingerprint) && SignedAndTrusted(s, log, start, certId)
    && exists ca :: ExportsWithCheckedCa(s, log, start, c, ca)
  }

  lemma {:induction false} StillSound(s: Setup, log: seq<Event>, start: nat, c: Course, certId: string, ids: seq<string>,
                                      evidence: seq<Evidence>, issued: Issued, log': seq<Event>)
    requires Sound(s, log, start, c, certId, ids, evidence, issued) && log <= log'
    ensures Sound(s, log', start, c, certId, ids, evidence, issued)
  {
    hide HardenProfile.Harden, CaMatches, CertVerified, SignedAndTrusted, RequestsProfile;
    StillVerified(s, log, start, certId, issued.fingerprint, log', start);
    StillSigned(s, log, start, certId, log');
    var ca :| ExportsWithCheckedCa(s, log, start, c, ca);
    CaStillMatches(s, log, start, ca, log', start);
    var i :| start <= i < |log| && log[i].Contents? && log[i].id == ids[2]
             && HardenProfile.Harden(s.harden, log[i].text) == HardenProfile.Ok(issued.text);
    assert log'[i] == log[i] && log'[c.profile + 1] == log[c.profile + 1] && log'[evidence[2].certificate] == log[evidence[2].certificate];
    assert ExportsWithCheckedCa(s, log', start, c, ca);
  }

  /** The profile captured cannot be hardened. */
  ghost predicate NotHardened(s: Setup, log: seq<Event>, c: Course, ids: seq<string>) {
    |ids| == 3 && exists text :: ReadSince(log, c.profile, ids[2], text) && HardenProfile.Harden(s.harden, text).Err?
  }

  /** The certificate was not read back, or is not what a profile requires. */
  ghost predicate NotAccepted(s: Setup, log: seq<Event>, certId: string) {
    && |log| > 0
    && var last := log[|log| - 1];
       (last.Failed? || (last.Certs? && last.name == s.certName)) && !Accepts(s, last, certId)
  }

  /** Why no profile was issued, from the end of the exchange. */
  ghost predicate Stopped(s: Setup, log: seq<Event>, start: nat, c: Course, a: Attempt) {
    || NotPrepared(s, log, start, c)
    || (start < c.ca <= c.profile <= |log| && log[c.ca - 1].Contents? && NoProfile(s, log, c.profile + 1, log[c.ca - 1].text))
    || NotHardened(s, log, c, a.ids)
    || NotAccepted(s, log, a.certId)
  }

  lemma {:induction false} NoProfilesTracked(s: Setup, log: seq<Event>, start: nat, a: Attempt, kinds: set<Kind>)
    requires SendsOnly(log, start, kinds) && ExportingProfile !in kinds
    ensures TracksProfiles(s, log, start, a)
  {
  }

  /** The profile's export was the only request, if any, and the listing right before it is the baseline. */
  lemma {:induction false} ProfilesTracked(s: Setup, log: seq<Event>, start: nat, log': seq<Event>, a: Attempt, kinds: set<Kind>)
    requires SendsOnly(log, start, kinds) && ExportingProfile !in kinds && start <= |log| < |log'| && log <= log'
    requires forall i | |log| <= i < |log'| && log'[i].Sent? :: i == |log| + 1
    requires |log'| > |log| + 1 ==> a.profile.attempted && log'[|log|].Files?
                                    && forall n :: n in a.profile.baseline <==> n in log'[|log|].files && s.isProfile(n)
    ensures TracksProfiles(s, log', start, a)
  {
    assert forall i | start <= i < |log| && log'[i].Sent? :: log'[i] == log[i] && KindOf(log[i].request) in kinds;
  }

  lemma {:induction false} StillTracksProfiles(s: Setup, log: seq<Event>, start: nat, log': seq<Event>, a: Attempt)
    requires TracksProfiles(s, log, start, a) && log <= log' && SendsOnly(log', |log|, {})
    ensures TracksProfiles(s, log', start, a)
  {
    forall i | start < i < |log'| && log'[i].Sent? && log'[i].request.ExportProfile?
      ensures i < |log|
    {
    }
    assert forall i | 0 <= i < |log| :: log'[i] == log[i];
  }

  lemma {:induction false} StillTracksFiles(s: Setup, log: seq<Event>, start: nat, a: Attempt, a': Attempt, more: set<string>)
    requires (forall n | IsClientFile(s, n) :: n in a.names) && TracksFiles(s, log, start, a)
    requires a'.names == a.names + more && a'.identified == a.identified + more
    ensures forall log' :: TracksFiles(s, log', start, a')
  {
  }

  lemma {:induction false} ProvedTogether(s: Setup, log: seq<Event>, start: nat, ids: seq<string>, evidence: seq<Evidence>,
                                          ids': seq<string>, evidence': seq<Evidence>)
    requires AllProved(s, log, start, ids, evidence) && AllProved(s, log, start, ids', evidence')
    ensures AllProved(s, log, start, ids + ids', evidence + evidence')
    ensures NamesOf(evidence + evidence') == NamesOf(evidence) + NamesOf(evidence')
  {
    hide Proves;
    var all := evidence + evidence';
    assert forall i | 0 <= i < |evidence| :: all[i] == evidence[i];
    assert forall i | 0 <= i < |evidence'| :: all[|evidence| + i] == evidence'[i];
    assert NamesOf(all) == NamesOf(evidence) + NamesOf(evidence');
  }

  /** Everything up to the point where the profile could be delivered. */
  method Issue(router: Router, s: Setup)
    returns (step: Step, a: Attempt, issued: Option<Issued>, ghost evidence: seq<Evidence>, ghost c: Course)
    modifies router
    ensures old(router.log) <= router.log && Explained(s, router.log, |old(router.log)|, c.ca)
    ensures SendsOnly(router.log, |old(router.log)|, {Creating, ExportingClient, ExportingCa, ExportingProfile, DeletingFile})
    ensures AllProved(s, router.log, |old(router.log)|, a.ids, evidence) && a.identified == NamesOf(evidence)
    ensures TracksFiles(s, router.log, |old(router.log)|, a) && TracksProfiles(s, router.log, |old(router.log)|, a)
    ensures KnowsId(s, router.log, |old(router.log)|, a.certId)
    ensures a.profile.identified ==> |a.ids| == 3
    ensures step == Ongoing <==> issued.Some?
    ensures issued.Some? ==> Sound(s, router.log, |old(router.log)|, c, a.certId, a.ids, evidence, issued.value)
    ensures step == RouterError ==> Stopped(s, router.log, |old(router.log)|, c, a)
    ensures step == LostError ==> EndsUnowned(router.log)
  {
    hide SendsOnly, Explained, AllProved, NamesOf, TracksFiles, TracksProfiles, KnowsId, CaMatches, SignedAndTrusted, NotPrepared,
      RequestsProfile, ReadSince, NoProfile, EndsUnowned, IsClientFile, HardenProfile.Harden, Accepts, CertVerified, ProfileFrom,
      NotHardened, Proves, Sound;
    ghost var start := |router.log|;
    issued := None;
    var certText, ca;
    step, a, certText, ca, evidence, c := Prepare(router, s);
    ghost var l := router.log;
    ghost var before := {Creating, ExportingClient, DeletingFile, ExportingCa};
    ghost var all := {Creating, ExportingClient, ExportingCa, ExportingProfile, DeletingFile};
    NoProfilesTracked(s, l, start, a, before);
    MoreKinds(l, start, before, all);
    if step != Ongoing {
      return;
    }
    IsLong(s, l, start, a.certId);
    c := c.(profile := |l|);
    var profile, ids, text;
    ghost var found;
    step, profile, ids, text, found := ExportClientProfile(router, s, ca, certText, start, c.ca - 1);
    ghost var l' := router.log;
    StillExplained(s, l, start, c.ca, l', {ExportingProfile});
    StillSends(l, start, before, l', {ExportingProfile}, all);
    StillKnowsId(s, l, start, a.certId, l');
    StillProved(s, l, start, a.ids, evidence, l');
    ProvedTogether(s, l', start, a.ids, evidence, ids, found);
    assert l'[c.ca - 1] == l[c.ca - 1];
    ghost var a0 := a;
    a := a.(names := a.names + profile.names, identified := a.identified + profile.names, ids := a.ids + ids, profile := profile);
    evidence := evidence + found;
    StillTracksFiles(s, l, start, a0, a, profile.names);
    ProfilesTracked(s, l, start, l', a, before);
    if step != Ongoing {
      return;
    }
    var hardened := HardenProfile.Harden(s.harden, text);
    if hardened.Err? {
      NotHardenedAt(s, l', c, a.ids, text);
      step := RouterError;
      return;
    }
    var fingerprint := CheckCertificate(router, s, a.certId);
    ghost var l'' := router.log;
    SendsNothing(l', l'');
    StillExplained(s, l', start, c.ca, l'', {});
    StillSends(l', start, all, l'', {}, all);
    StillKnowsId(s, l', start, a.certId, l'');
    StillProved(s, l', start, a.ids, evidence, l'');
    StillTracksProfiles(s, l', start, l'', a);
    if fingerprint.None? {
      step := RouterError;
      return;
    }
    issued := Some(Issued(hardened.profile, fingerprint.value));
    SoundInTheEnd(s, l, l', l'', start, c, a.certId, a.ids, evidence, ca, text, issued.value);
  }

  lemma {:induction false} IsLong(s: Setup, log: seq<Event>, start: nat, certId: string)
    requires SignedAndTrusted(s, log, start, certId)
    ensures |log| > start + 2
  {
  }

  lemma {:induction false} SendsNothing(log: seq<Event>, log': seq<Event>)
    requires log <= log' && |log'| == |log| + 1 && !log'[|log|].Sent?
    ensures SendsOnly(log', |log|, {})
  {
  }

  lemma {:induction false} NotHardenedAt(s: Setup, log: seq<Event>, c: Course, ids: seq<string>, text: string)
    requires |ids| == 3 && ReadSince(log, c.profile, ids[2], text) && HardenProfile.Harden(s.harden, text).Err?
    ensures NotHardened(s, log, c, ids)
  {
    hide ReadSince, HardenProfile.Harden;
  }

  /** The parts of the promise, each from where it was established. */
  lemma {:induction false} SoundInTheEnd(s: Setup, l: seq<Event>, l': seq<Event>, l'': seq<Event>, start: nat, c: Course, certId: string,
                                         ids: seq<string>, evidence: seq<Evidence>, ca: string, text: string, issued: Issued)
    requires l <= l' <= l'' && start <= |l| == c.profile && SignedAndTrusted(s, l, start, certId) && CaMatches(s, l, start, ca)
    requires |ids| == |evidence| == 3 && evidence[2].certificate < |l| && l[evidence[2].certificate].Contents?
    requires l[evidence[2].certificate].id == ids[0]
    requires c.profile + 1 < |l'| && RequestsProfile(s, l'[c.profile + 1], ca) && ReadSince(l', c.profile, ids[2], text)
    requires HardenProfile.Harden(s.harden, text) == HardenProfile.Ok(issued.text)
    requires CertVerified(s, l'', |l'|, certId, issued.fingerprint)
    ensures Sound(s, l'', start, c, certId, ids, evidence, issued)
  {
    hide HardenProfile.Harden, CaMatches, CertVerified, SignedAndTrusted, RequestsProfile;
    StillSigned(s, l, start, certId, l'');
    CaStillMatches(s, l, start, ca, l'', start);
    StillVerified(s, l'', |l'|, certId, issued.fingerprint, l'', start);
    var k :| c.profile <= k < |l'| && l'[k] == Contents(ids[2], text);
    assert l''[k] == l'[k] && l''[c.profile + 1] == l'[c.profile + 1] && l''[evidence[2].certificate] == l[evidence[2].certificate];
    assert ExportsWithCheckedCa(s, l'', start, c, ca);
  }

  // ----- The whole run -------------------------------------------------------------------------

  /** FilesLeft says that temporary files could not be safely removed; Stuck that the certificate
      could not be either, or not verifiably. */
  datatype Result =
    | Provisioned(profile: string, certId: string, fingerprint: string)
    | FailedCleanly
    | FilesLeft
    | Stuck
    | CoordinationLost

  /** The inventory is missing, or shows a name without a captured id, or a profile that appeared
      since an export whose result was not identified. */
  ghost predicate Unsafe(s: Setup, inventory: Event, a: Attempt) {
    || !inventory.Files?
    || (exists n :: n in inventory.files && n in a.names && n !in a.identified)
    || (a.profile.attempted && !a.profile.identified
        && exists n :: n in inventory.files && s.isProfile(n) && n !in a.profile.baseline && n !in a.names)
  }

  ghost predicate UnsafeAt(s: Setup, log: seq<Event>, at: nat, a: Attempt) {
    (a.names != {} || a.profile.attempted) && at < |log| && Unsafe(s, log[at], a)
  }

  /** The inventory check of the clean-up; what it objects to is left alone and reported. */
  method Inventory(router: Router, s: Setup, a: Attempt) returns (safe: bool)
    modifies router
    ensures old(router.log) <= router.log && SendsOnly(router.log, |old(router.log)|, {})
    ensures |router.log| == |old(router.log)| + if a.names != {} || a.profile.attempted then 1 else 0
    ensures safe <==> !UnsafeAt(s, router.log, |old(router.log)|, a)
  {
    safe := true;
    if a.names != {} || a.profile.attempted {
      var files := router.ListFiles();
      if files.None? {
        return false;
      }
      var unknown := set n | n in a.names && n !in a.identified && n in files.value;
      var untracked := set n | n in files.value && s.isProfile(n) && n !in a.profile.baseline && n !in a.names;
      if unknown != {} || (a.profile.attempted && !a.profile.identified && untracked != {}) {
        safe := false;
      }
      assert forall n :: n in unknown <==> n in files.value && n in a.names && n !in a.identified;
      assert forall n :: n in untracked <==> n in files.value && s.isProfile(n) && n !in a.profile.baseline && n !in a.names;
      assert unknown != {} ==> exists n :: n in unknown;
      assert untracked != {} ==> exists n :: n in untracked;
    }
  }

  ghost predicate SomeLeftBehind(log: seq<Event>, start: nat, ids: seq<string>) {
    exists id :: id in ids && LeftBehind(log, start, id)
  }

  /** The certificates deleted are the given one, or the only one listed. */
  ghost predicate DeletesOwn(s: Setup, log: seq<Event>, start: nat, certId: string) {
    forall i | start <= i < |log| && log[i].Sent? && log[i].request.DeleteCert? ::
      log[i].request.id != "" && (log[i].request.id == certId || IsOwnCertificate(s, log, start, log[i].request.id))
  }

  lemma {:induction false} RemovalIsOwn(s: Setup, log: seq<Event>, start: nat, log': seq<Event>, certId: string)
    requires start <= |log| < |log'| && log <= log' && SendsOnly(log, start, {DeletingFile})
    requires forall i | |log| <= i < |log'| && log'[i].Sent? ::
               log'[i].request.DeleteCert? && MayRemove(log', |log|, s.certName, certId, log'[i].request.id)
    ensures DeletesOwn(s, log', start, certId) && DeletesOnly(log', |log|, [])
  {
    hide OnlyNamed;
    assert forall i | start <= i < |log| :: log'[i] == log[i];
    forall i | start <= i < |log'| && log'[i].Sent? && log'[i].request.DeleteCert?
      ensures log'[i].request.id != "" && (log'[i].request.id == certId || IsOwnCertificate(s, log', start, log'[i].request.id))
    {
      if i >= |log| && certId == "" {
        assert ShowsCertificate(s, log'[|log|], log'[i].request.id);
      }
    }
  }

  lemma {:induction false} RemovesNothing(s: Setup, log: seq<Event>, start: nat, certId: string)
    requires SendsOnly(log, start, {DeletingFile})
    ensures DeletesOwn(s, log, start, certId)
  {
  }

  /** The clean-up that every way out of a run goes through. */
  method CleanUp(router: Router, s: Setup, step: Step, a: Attempt, issued: Option<Issued>) returns (r: Result)
    requires forall i | 0 <= i < |a.ids| :: a.ids[i] != ""
    requires step == Ongoing <==> issued.Some?
    modifies router
    ensures old(router.log) <= router.log
    ensures DeletesOnly(router.log, |old(router.log)|, a.ids) && DeletesOwn(s, router.log, |old(router.log)|, a.certId)
    ensures r.Provisioned? ==> issued.Some? && r == Provisioned(issued.value.text, a.certId, issued.value.fingerprint)
    ensures r.Provisioned? || r.FailedCleanly? ==>
              !UnsafeAt(s, router.log, |old(router.log)|, a) && forall id | id in a.ids :: ReadBackAbsent(router.log, |old(router.log)|, id)
    ensures r.Provisioned? || r.FailedCleanly? ==>
              a.names != {} || a.profile.attempted ==> |router.log| > |old(router.log)|
    ensures r.FailedCleanly? ==> step == RouterError
    ensures r.FilesLeft? || (r.Stuck? && issued.Some?) ==>
              UnsafeAt(s, router.log, |old(router.log)|, a) || SomeLeftBehind(router.log, |old(router.log)|, a.ids)
    ensures r.FailedCleanly? || r.FilesLeft? ==> NoCertificate(router.log, s.certName)
    ensures r.Stuck? ==> CertificateLeft(router.log, s.certName)
    ensures r.CoordinationLost? ==> EndsUnowned(router.log) || step == LostError
  {
    hide ReadBackAbsent, LeftBehind, ReadBackAt, NoCertificate, CertificateLeft, Unsafe, MayRemove, DeletesOwn, DeletesOnly, SendsOnly;
    ghost var start := |router.log|;
    var safe := Inventory(router, s, a);
    ghost var l := router.log;
    var deleted := DeleteFiles(router, a.ids);
    ghost var l' := router.log;
    StillSends(l, start, {}, l', {DeletingFile}, {DeletingFile});
    RemovesNothing(s, l', start, a.certId);
    DeletesFrom(l, start, l', a.ids);
    if deleted == CleanupLost {
      return CoordinationLost;
    }
    FilesSince(l', |l|, start, a.ids, deleted);
    assert UnsafeAt(s, l', start, a) <==> !safe;
    if safe && deleted == Cleaned && issued.Some? {
      return Provisioned(issued.value.text, a.certId, issued.value.fingerprint);
    }
    var removed := RemoveCertificate(router, s.certName, a.certId);
    RemovalIsOwn(s, l', start, router.log, a.certId);
    DeletesTogether(l', start, router.log, [], a.ids);
    FilesStill(l', start, a.ids, deleted, router.log);
    assert UnsafeAt(s, router.log, start, a) <==> !safe;
    if removed == CleanupLost {
      return CoordinationLost;
    }
    if removed == NotCleaned {
      return Stuck;
    }
    if !safe || deleted == NotCleaned {
      return FilesLeft;
    }
    r := if step == LostError then CoordinationLost else FailedCleanly;
  }

  /** The deletions of the clean-up, whose inventory deletes nothing. */
  lemma {:induction false} DeletesFrom(log: seq<Event>, start: nat, log': seq<Event>, ids: seq<string>)
    requires log <= log' && SendsOnly(log, start, {}) && DeletesOnly(log', |log|, ids)
    ensures DeletesOnly(log', start, ids)
  {
    assert forall i | start <= i < |log| :: log'[i] == log[i];
  }

  /** What became of the files, as their deletion reported it. */
  ghost predicate FilesAre(log: seq<Event>, start: nat, ids: seq<string>, deleted: Cleanup) {
    if deleted == Cleaned then forall id | id in ids :: ReadBackAbsent(log, start, id) else SomeLeftBehind(log, start, ids)
  }

  lemma {:induction false} FilesSince(log: seq<Event>, start: nat, earlier: nat, ids: seq<string>, deleted: Cleanup)
    requires FilesAre(log, start, ids, deleted) && earlier <= start
    ensures FilesAre(log, earlier, ids, deleted)
  {
    FilesStillSince(log, start, ids, deleted, log, earlier);
  }

  lemma {:induction false} FilesStill(log: seq<Event>, start: nat, ids: seq<string>, deleted: Cleanup, log': seq<Event>)
    requires FilesAre(log, start, ids, deleted) && log <= log'
    ensures FilesAre(log', start, ids, deleted)
  {
    FilesStillSince(log, start, ids, deleted, log', start);
  }

  lemma {:induction false} FilesStillSince(log: seq<Event>, start: nat, ids: seq<string>, deleted: Cleanup, log': seq<Event>, earlier: nat)
    requires FilesAre(log, start, ids, deleted) && log <= log' && earlier <= start
    ensures FilesAre(log', earlier, ids, deleted)
  {
    hide ReadBackAbsent, LeftBehind;
    if deleted == Cleaned {
      forall id | id in ids
        ensures ReadBackAbsent(log', earlier, id)
      {
        StillReadBack(log, start, id, true, log', earlier);
      }
    } else {
      var id :| id in ids && LeftBehind(log, start, id);
      StillReadBack(log, start, id, false, log', earlier);
      assert id in ids && LeftBehind(log', earlier, id);
    }
  }

  /** At the inventory, no file that this run's exports may have left was overlooked: each listed
      client file is captured, and each profile that appeared since the profile's export is, unless
      the run's own profile was identified. */
  ghost predicate NothingOverlooked(s: Setup, log: seq<Event>, start: nat, cleanup: nat, ids: seq<string>, evidence: seq<Evidence>)
    requires cleanup <= |log|
  {
    forall i | start < i < cleanup && log[i].Sent? && (log[i].request.ExportCert? || log[i].request.ExportProfile?) ::
      && cleanup < |log| && ClientFilesCaptured(s, log[cleanup], evidence)
      && (log[i].request.ExportProfile? ==> |ids| == 3 || NewProfilesCaptured(s, log[i - 1], log[cleanup], evidence))
  }

  ghost predicate ClientFilesCaptured(s: Setup, inventory: Event, evidence: seq<Evidence>) {
    inventory.Files? && forall n | n in inventory.files && IsClientFile(s, n) :: n in NamesOf(evidence)
  }

  ghost predicate NewProfilesCaptured(s: Setup, before: Event, inventory: Event, evidence: seq<Evidence>) {
    && before.Files? && inventory.Files?
    && forall n | n in inventory.files && s.isProfile(n) && n !in before.files :: n in NamesOf(evidence)
  }

  lemma {:induction false} TrackedIsNotOverlooked(s: Setup, l: seq<Event>, log: seq<Event>, start: nat, a: Attempt, evidence: seq<Evidence>)
    requires TracksFiles(s, l, start, a) && TracksProfiles(s, l, start, a) && a.identified == NamesOf(evidence) && l <= log
    requires a.profile.identified ==> |a.ids| == 3
    requires a.names != {} || a.profile.attempted ==> |log| > |l|
    requires !UnsafeAt(s, log, |l|, a)
    ensures NothingOverlooked(s, log, start, |l|, a.ids, evidence)
  {
    hide NamesOf;
    assert forall i | 0 <= i < |l| :: log[i] == l[i];
    forall i | start < i < |l| && log[i].Sent? && (log[i].request.ExportCert? || log[i].request.ExportProfile?)
      ensures !SendsOnly(l, start, {Creating})
    {
      assert KindOf(l[i].request) != Creating;
    }
    assert IsClientFile(s, CertFile(s));
  }

  /** A run of provision_profile.  a.ids are the files captured from this run's own exports, and
      cleanup is where the final clean-up starts. */
  method Provision(router: Router, s: Setup)
    returns (r: Result, ghost a: Attempt, ghost evidence: seq<Evidence>, ghost c: Course, ghost cleanup: nat)
    modifies router
    ensures |old(router.log)| <= cleanup <= |router.log| && old(router.log) <= router.log
    ensures AllProved(s, router.log, |old(router.log)|, a.ids, evidence)
    ensures Explained(s, router.log[..cleanup], |old(router.log)|, c.ca) && DeletesOnly(router.log, cleanup, a.ids)
    ensures forall i | |old(router.log)| <= i < |router.log| && router.log[i].Sent? && router.log[i].request.DeleteCert? ::
              i >= cleanup && IsOwnCertificate(s, router.log, |old(router.log)|, router.log[i].request.id)
    ensures r.Provisioned? ==> Sound(s, router.log, |old(router.log)|, c, r.certId, a.ids, evidence, Issued(r.profile, r.fingerprint))
    ensures r.Provisioned? || r.FailedCleanly? ==>
              && (forall id | id in a.ids :: ReadBackAbsent(router.log, cleanup, id))
              && NothingOverlooked(s, router.log, |old(router.log)|, cleanup, a.ids, evidence)
    ensures r.FailedCleanly? || r.FilesLeft? ==> NoCertificate(router.log, s.certName)
    ensures r.FailedCleanly? ==> Stopped(s, router.log[..cleanup], |old(router.log)|, c, a)
    ensures r.FilesLeft? ==> UnsafeAt(s, router.log, cleanup, a) || SomeLeftBehind(router.log, cleanup, a.ids)
    ensures r.Stuck? ==> CertificateLeft(router.log, s.certName)
    ensures r.Stuck? ==> UnsafeAt(s, router.log, cleanup, a) || SomeLeftBehind(router.log, cleanup, a.ids)
                         || Stopped(s, router.log[..cleanup], |old(router.log)|, c, a) || EndsUnowned(router.log[..cleanup])
    ensures r.CoordinationLost? ==> EndsUnowned(router.log) || EndsUnowned(router.log[..cleanup])
  {
    hide Proves, ReadBackAbsent, NoCertificate, Sound, Explained, Stopped, UnsafeAt, SomeLeftBehind, CertificateLeft, EndsUnowned,
      NothingOverlooked, TracksFiles, TracksProfiles, KnowsId, NamesOf, DeletesOwn, SendsOnly, IsOwnCertificate, AllProved, DeletesOnly;
    ghost var start := |router.log|;
    var step, attempt, issued;
    step, attempt, issued, evidence, c := Issue(router, s);
    a := attempt;
    cleanup := |router.log|;
    ghost var l := router.log;
    ProvedAreNamed(s, l, start, a.ids, evidence);
    r := CleanUp(router, s, step, attempt, issued);
    assert router.log[..cleanup] == l;
    StillProved(s, l, start, a.ids, evidence, router.log);
    OwnRemovals(s, l, start, router.log, a.certId);
    if r.Provisioned? {
      StillSound(s, l, start, c, a.certId, a.ids, evidence, issued.value, router.log);
    }
    if r.Provisioned? || r.FailedCleanly? {
      TrackedIsNotOverlooked(s, l, router.log, start, a, evidence);
    }
  }

  lemma {:induction false} ProvedAreNamed(s: Setup, log: seq<Event>, start: nat, ids: seq<string>, evidence: seq<Evidence>)
    requires AllProved(s, log, start, ids, evidence)
    ensures forall i | 0 <= i < |ids| :: ids[i] != ""
  {
    forall i | 0 <= i < |ids|
      ensures ids[i] != ""
    {
      assert Proves(s, log, start, evidence[i], ids[i]);
    }
  }

  lemma {:induction false} OwnRemovals(s: Setup, log: seq<Event>, start: nat, log': seq<Event>, certId: string)
    requires KnowsId(s, log, start, certId) && log <= log' && DeletesOwn(s, log', |log|, certId) && start <= |log|
    requires SendsOnly(log, start, {Creating, ExportingClient, ExportingCa, ExportingProfile, DeletingFile})
    ensures forall i | start <= i < |log'| && log'[i].Sent? && log'[i].request.DeleteCert? ::
              i >= |log| && IsOwnCertificate(s, log', start, log'[i].request.id)
  {
    hide IsOwnCertificate;
    assert forall i | start <= i < |log| :: log'[i] == log[i];
    if certId != "" {
      StillOwnCertificate(s, log, start, certId, log');
    }
    forall i | |log| <= i < |log'| && log'[i].Sent? && log'[i].request.DeleteCert?
      ensures IsOwnCertificate(s, log', start, log'[i].request.id)
    {
      if log'[i].request.id != certId {
        OwnFromEarlier(s, log', |log|, start, log'[i].request.id);
      }
    }
  }

  lemma {:induction false} OwnFromEarlier(s: Setup, log: seq<Event>, start: nat, earlier: nat, id: string)
    requires IsOwnCertificate(s, log, start, id) && earlier <= start
    ensures IsOwnCertificate(s, log, earlier, id)
  {
  }
}
