/** The global budget of buffered handshake and polling bytes.

    Requests of any number interleave; each step is what one request does between two awaits.
    The counter is compared with what the live requests hold.  A response start assigns the
    reserved header size instead of adding to it, so a second start before the first header was
    flushed leaves the first reservation counted for ever; that is the only way to leak.
 */
module ByteBudget {
  import opened Wrappers

  const MAX_REQUEST_BYTES := 1_000_000
  const MAX_TOTAL_BYTES := 4_000_000

  /** One buffered response: reserved header and body bytes, and whether its start is pending. */
  datatype Buffer = Buffer(header: nat, body: nat, started: bool)

  /** A request buffers either its handshake response or its polling response. */
  datatype Request = Request(handshake: Buffer, poll: Buffer)

  datatype Kind = Handshake | Poll

  const EMPTY := Buffer(0, 0, false)

  function Held(r: Request): nat {
    r.handshake.header + r.handshake.body + r.poll.header + r.poll.body
  }

  function Total(requests: seq<Request>): nat {
    if requests == [] then 0 else Total(requests[..|requests| - 1]) + Held(requests[|requests| - 1])
  }

  function Of(r: Request, kind: Kind): Buffer {
    if kind == Handshake then r.handshake else r.poll
  }

  function With(r: Request, kind: Kind, b: Buffer): Request {
    if kind == Handshake then r.(handshake := b) else r.(poll := b)
  }

  lemma {:induction false} TotalOfUpdate(requests: seq<Request>, i: nat, r: Request)
    requires i < |requests|
    ensures Total(requests[i := r]) == Total(requests) - Held(requests[i]) + Held(r)
    ensures Held(requests[i]) <= Total(requests)
    decreases |requests|
  {
    hide Held;
    var n := |requests| - 1;
    if i == n {
      assert requests[i := r][..n] == requests[..n];
    } else {
      assert requests[i := r][..n] == requests[..n][i := r];
      TotalOfUpdate(requests[..n], i, r);
    }
  }

  lemma {:induction false} TotalOfNothing(requests: seq<Request>)
    requires forall i | 0 <= i < |requests| :: Held(requests[i]) == 0
    ensures Total(requests) == 0
    decreases |requests|
  {
    if requests != [] {
      TotalOfNothing(requests[..|requests| - 1]);
    }
  }

  class BufferBudget {
    var buffered: int
    var requests: seq<Request>

    /** Header bytes whose reservation a second response start has overwritten. */
    ghost var leaked: nat

    ghost predicate Valid()
      reads this
    {
      buffered == Total(requests) + leaked && buffered <= MAX_TOTAL_BYTES
    }

    constructor ()
      ensures Valid() && buffered == 0 && requests == [] && leaked == 0
    {
      buffered, requests, leaked := 0, [], 0;
    }

    method Reserve(size: int) returns (ok: bool)
      modifies this`buffered
      ensures ok <==> 0 <= size && old(buffered) + size <= MAX_TOTAL_BYTES
      ensures buffered == old(buffered) + if ok then size else 0
    {
      if size < 0 {
        return false;
      }
      if buffered + size > MAX_TOTAL_BYTES {
        return false;
      }
      buffered := buffered + size;
      ok := true;
    }

    method Release(size: int)
      modifies this`buffered
      ensures buffered == if size <= 0 then old(buffered)
                          else if old(buffered) >= size then old(buffered) - size else 0
    {
      if size <= 0 {
        return;
      }
      buffered := if buffered - size > 0 then buffered - size else 0;
    }

    /** The only step that can leak: it does so exactly when an accepted start finds header bytes
        of an earlier start still reserved. */
    method Start(i: nat, kind: Kind, size: Option<nat>) returns (ok: bool)
      requires Valid() && i < |requests|
      modifies this
      ensures Valid()
      ensures ok <==> size.Some? && size.value <= MAX_REQUEST_BYTES && old(buffered) + size.value <= MAX_TOTAL_BYTES
      ensures ok ==> requests == old(requests)[i := With(old(requests)[i], kind,
                                 Buffer(size.value, Of(old(requests)[i], kind).body, true))]
      ensures ok ==> leaked == old(leaked) + Of(old(requests)[i], kind).header && buffered == old(buffered) + size.value
      ensures !ok ==> requests == old(requests) && leaked == old(leaked) && buffered == old(buffered)
    {
      if size.None? || size.value > MAX_REQUEST_BYTES {
        return false;
      }
      ok := Reserve(size.value);
      if ok {
        var b := Of(requests[i], kind);
        var r := With(requests[i], kind, Buffer(size.value, b.body, true));
        TotalOfUpdate(requests, i, r);
        requests := requests[i := r];
        leaked := leaked + b.header;
      }
    }

    /** A chunk of a handshake body must fit beside what is buffered already. */
    method HandshakeBody(i: nat, size: nat) returns (ok: bool)
      requires Valid() && i < |requests|
      modifies this`buffered, this`requests
      ensures Valid() && buffered == old(buffered) + if ok then size else 0
      ensures var b := old(requests)[i].handshake;
              && (ok <==> (size == 0 || b.header + b.body + size <= MAX_REQUEST_BYTES)
                          && old(buffered) + size <= MAX_TOTAL_BYTES)
              && requests == if ok then old(requests)[i := old(requests)[i].(handshake := b.(body := b.body + size))]
                             else old(requests)
    {
      var b := requests[i].handshake;
      var free := MAX_REQUEST_BYTES - b.header - b.body;
      var available := if free > 0 then free else 0;
      if size > available {
        return false;
      }
      ok := Reserve(size);
      if ok {
        var r := requests[i].(handshake := b.(body := b.body + size));
        TotalOfUpdate(requests, i, r);
        requests := requests[i := r];
      }
    }

    /** A chunk of a polling body is buffered only behind a pending response start. */
    method PollBody(i: nat, size: nat) returns (ok: bool)
      requires Valid() && i < |requests| && requests[i].poll.started
      modifies this`buffered, this`requests
      ensures Valid() && buffered == old(buffered) + if ok then size else 0
      ensures var b := old(requests)[i].poll;
              && (ok <==> b.header + b.body + size <= MAX_REQUEST_BYTES && old(buffered) + size <= MAX_TOTAL_BYTES)
              && requests == if ok then old(requests)[i := old(requests)[i].(poll := b.(body := b.body + size))]
                             else old(requests)
    {
      var b := requests[i].poll;
      if b.body + size + b.header > MAX_REQUEST_BYTES {
        return false;
      }
      ok := Reserve(size);
      if ok {
        var r := requests[i].(poll := b.(body := b.body + size));
        TotalOfUpdate(requests, i, r);
        requests := requests[i := r];
      }
    }

    /** Releases what one request holds in one buffer; the clamp at zero never engages. */
    method Drop(i: nat, kind: Kind, header: bool, body: bool)
      requires Valid() && i < |requests|
      modifies this`buffered, this`requests
      ensures Valid() && |requests| == |old(requests)|
      ensures var b := Of(old(requests)[i], kind);
              var b' := Buffer(if header then 0 else b.header, if body then 0 else b.body, b.started && !header);
              && requests == old(requests)[i := With(old(requests)[i], kind, b')]
              && buffered == old(buffered) - (if header then b.header else 0) - (if body then b.body else 0)
    {
      var b := Of(requests[i], kind);
      var b' := Buffer(if header then 0 else b.header, if body then 0 else b.body, b.started && !header);
      TotalOfUpdate(requests, i, With(requests[i], kind, b'));
      if body {
        Release(b.body);
      }
      if header {
        Release(b.header);
      }
      requests := requests[i := With(requests[i], kind, b')];
    }

    /** The clean-up that runs on every way out of a request. */
    method Close(i: nat)
      requires Valid() && i < |requests|
      modifies this`buffered, this`requests
      ensures Valid() && requests == old(requests)[i := Request(EMPTY, EMPTY)]
      ensures buffered == old(buffered) - old(Held(requests[i]))
    {
      Drop(i, Handshake, true, true);
      Drop(i, Poll, true, true);
    }

    method Open() returns (i: nat)
      requires Valid()
      modifies this`requests
      ensures Valid() && i == |old(requests)| && requests == old(requests) + [Request(EMPTY, EMPTY)]
    {
      i := |requests|;
      requests := requests + [Request(EMPTY, EMPTY)];
      assert requests[..i] == old(requests);
    }

    /** Any interleaving of any requests.  Once every request has been cleaned up, the counter is
        back at zero if and only if no accepted start overwrote a header still reserved. */
    method Run(steps: seq<Step>) returns (ghost overwrote: bool)
      requires Valid() && leaked == 0
      modifies this
      ensures Valid()
      ensures buffered == Total(requests) <==> !overwrote
      ensures (forall i | 0 <= i < |requests| :: Held(requests[i]) == 0) ==> (buffered == 0 <==> !overwrote)
    {
      overwrote := false;
      for k := 0 to |steps|
        invariant Valid() && (leaked > 0 <==> overwrote)
      {
        match steps[k] {
          case OpenRequest => var _ := Open();
          case ResponseStart(i, kind, size) =>
            if i < |requests| {
              ghost var reserved := Of(requests[i], kind).header;
              var ok := Start(i, kind, size);
              overwrote := overwrote || (ok && reserved > 0);
            }
          case HandshakeChunk(i, size) => if i < |requests| { var _ := HandshakeBody(i, size); }
          case PollChunk(i, size) => if i < |requests| && requests[i].poll.started { var _ := PollBody(i, size); }
          case FlushHeader(i, kind) => if i < |requests| { Drop(i, kind, true, false); }
          case FlushBody(i, kind) => if i < |requests| { Drop(i, kind, false, true); }
          case CloseRequest(i) => if i < |requests| { Close(i); }
        }
      }
      if forall i | 0 <= i < |requests| :: Held(requests[i]) == 0 {
        TotalOfNothing(requests);
      }
    }
  }

  /** Two starts without a flush in between leave the first header's bytes counted for ever. */
  method SecondStartLeaks() returns (budget: BufferBudget)
    ensures fresh(budget) && budget.requests == [Request(EMPTY, EMPTY)] && budget.buffered == 10
  {
    hide Total;
    budget := new BufferBudget();
    var i := budget.Open();
    var first := budget.Start(i, Handshake, Some(10));
    var second := budget.Start(i, Handshake, Some(20));
    assert budget.requests[i] == Request(Buffer(20, 0, true), EMPTY);
    assert budget.requests == [Request(Buffer(20, 0, true), EMPTY)];
    budget.Close(i);
  }

  datatype Step =
    | OpenRequest
    | ResponseStart(i: nat, kind: Kind, headerSize: Option<nat>)
    | HandshakeChunk(i: nat, size: nat)
    | PollChunk(i: nat, size: nat)
    | FlushHeader(i: nat, kind: Kind)
    | FlushBody(i: nat, kind: Kind)
    | CloseRequest(i: nat)
}
