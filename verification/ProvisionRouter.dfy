/** The router as profile provisioning sees it: any read may fail or return anything, any request
    may be refused or answered, with or without taking effect.  The log records the exchange. */
module ProvisionRouter {
  import opened Wrappers

  datatype Remaining = Unstated | Unreadable | Seconds(seconds: int)

  /** A certificate record; an absent field is None or the empty string. */
  datatype Cert = Cert(id: string, name: string, commonName: string, fingerprint: string, ca: string,
                       trusted: Option<bool>, revoked: Option<bool>, readableExpiry: bool, remaining: Remaining)

  datatype Request =
    | CreateCert(name: string, commonName: string)
    | Sign(id: string, ca: string)
    | Trust(id: string)
    | ExportCert(id: string)
    | ExportCa(id: string)
    | ExportProfile(ca: string, certificate: string, key: string)
    | DeleteFile(id: string)
    | DeleteCert(id: string)

  /** Failed is a read without an answer.  Created is the answer to the creation of a certificate,
      with an empty id if it carried none.  Unowned is a request that was not sent, because review
      coordination had been lost. */
  datatype Event =
    | Files(files: map<string, string>)
    | Certs(name: string, certs: seq<Cert>)
    | Contents(id: string, text: string)
    | Failed
    | Sent(request: Request)
    | Created(id: string)
    | Refusal
    | Unowned

  datatype Reply = Done | Refused | Lost

  function Exchange(request: Request, reply: Reply): seq<Event> {
    match reply
    case Done => [Sent(request)]
    case Refused => [Sent(request), Refusal]
    case Lost => [Unowned]
  }

  datatype Kind = Creating | ExportingClient | ExportingCa | ExportingProfile | DeletingFile | DeletingCert

  function KindOf(request: Request): Kind {
    match request
    case CreateCert(_, _) => Creating
    case Sign(_, _) => Creating
    case Trust(_) => Creating
    case ExportCert(_) => ExportingClient
    case ExportCa(_) => ExportingCa
    case ExportProfile(_, _, _) => ExportingProfile
    case DeleteFile(_) => DeletingFile
    case DeleteCert(_) => DeletingCert
  }

  /** The requests sent from a point of the log on are of these kinds. */
  ghost predicate SendsOnly(log: seq<Event>, start: nat, kinds: set<Kind>) {
    forall i | start <= i < |log| && log[i].Sent? :: KindOf(log[i].request) in kinds
  }

  lemma {:induction false} StillSends(log: seq<Event>, start: nat, kinds: set<Kind>, log': seq<Event>, more: set<Kind>, all: set<Kind>)
    requires SendsOnly(log, start, kinds) && log <= log' && SendsOnly(log', |log|, more) && kinds <= all && more <= all
    ensures SendsOnly(log', start, all)
  {
    forall i | start <= i < |log'| && log'[i].Sent?
      ensures KindOf(log'[i].request) in all
    {
      if i < |log| {
        assert log'[i] == log[i];
      }
    }
  }

  lemma {:induction false} NothingSent(log: seq<Event>)
    ensures SendsOnly(log, |log|, {})
  {
  }

  class Router {
    ghost var log: seq<Event>

    constructor ()
      ensures log == []
    {
      log := [];
    }

    /** File names and ids; a file without an id has the empty one. */
    method ListFiles() returns (files: Option<map<string, string>>)
      modifies this
      ensures log == old(log) + [if files.Some? then Files(files.value) else Failed]
    {
      var failed: bool, listed: map<string, string> := *, *;
      log := log + [if failed then Failed else Files(listed)];
      files := if failed then None else Some(listed);
    }

    method ListCerts(name: string) returns (certs: Option<seq<Cert>>)
      modifies this
      ensures log == old(log) + [if certs.Some? then Certs(name, certs.value) else Failed]
    {
      var failed: bool, listed: seq<Cert> := *, *;
      log := log + [if failed then Failed else Certs(name, listed)];
      certs := if failed then None else Some(listed);
    }

    method ReadFile(id: string) returns (text: Option<string>)
      modifies this
      ensures log == old(log) + [if text.Some? then Contents(id, text.value) else Failed]
    {
      var failed: bool, contents: string := *, *;
      log := log + [if failed then Failed else Contents(id, contents)];
      text := if failed then None else Some(contents);
    }

    method Send(request: Request) returns (reply: Reply)
      modifies this
      ensures log == old(log) + Exchange(request, reply)
    {
      reply := *;
      log := log + Exchange(request, reply);
    }

    /** Creates a certificate; the answer may carry its id. */
    method Create(name: string, commonName: string) returns (reply: Reply, id: string)
      modifies this
      ensures log == old(log) + Exchange(CreateCert(name, commonName), reply) + (if reply == Done then [Created(id)] else [])
    {
      id := *;
      reply := Send(CreateCert(name, commonName));
      if reply == Done {
        log := log + [Created(id)];
      }
    }
  }
}
