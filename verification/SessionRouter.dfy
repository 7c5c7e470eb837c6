/** The router's active-session table, as far as the dashboard can rely on it.

    A listing may fail, or return any rows at all: sessions come and go and row ids are reused.
    A termination may fail, and may or may not have taken effect.  The log records what the
    dashboard saw and asked for.
 */
module SessionRouter {
  import opened Wrappers

  /** A row of the active-session table: row id, account, unique session id, source and VPN address. */
  datatype Row = Row(id: string, name: string, session: string, source: string, vpn: string)

  datatype Event =
    | Read(rows: seq<Row>)
    | ReadFailed
    | Terminate(id: string)

  class Router {
    ghost var log: seq<Event>

    constructor ()
      ensures log == []
    {
      log := [];
    }

    method ListSessions() returns (rows: Option<seq<Row>>)
      modifies this
      ensures log == old(log) + [if rows.Some? then Read(rows.value) else ReadFailed]
    {
      var failed: bool, listed: seq<Row> := *, *;
      if failed {
        log := log + [ReadFailed];
        return None;
      }
      log := log + [Read(listed)];
      rows := Some(listed);
    }

    method TerminateSession(id: string) returns (ok: bool)
      modifies this
      ensures log == old(log) + [Terminate(id)]
    {
      log := log + [Terminate(id)];
      ok := *;
    }
  }

  function Named(rows: seq<Row>, username: string): seq<Row> {
    if rows == [] then []
    else if rows[0].name == username then [rows[0]] + Named(rows[1..], username)
    else Named(rows[1..], username)
  }

  lemma {:induction false} NamedRows(rows: seq<Row>, username: string)
    ensures forall r :: r in Named(rows, username) <==> r in rows && r.name == username
  {
    if rows != [] {
      NamedRows(rows[1..], username);
      assert rows == [rows[0]] + rows[1..];
    }
  }

  /** How many of the first rows are the account's. */
  function EarlierRows(rows: seq<Row>, username: string, n: nat): nat
    requires n <= |rows|
  {
    if n == 0 then 0 else EarlierRows(rows, username, n - 1) + if rows[n - 1].name == username then 1 else 0
  }

  /** The account's rows, in order: the k-th of them is the one with k earlier ones. */
  lemma {:induction false} NamedInOrder(rows: seq<Row>, username: string, n: nat)
    requires n <= |rows|
    ensures Named(rows[..n], username) == (if n > 0 && rows[n - 1].name == username
                                           then Named(rows[..n - 1], username) + [rows[n - 1]]
                                           else if n > 0 then Named(rows[..n - 1], username) else [])
    ensures |Named(rows[..n], username)| == EarlierRows(rows, username, n)
  {
    if n > 0 {
      NamedInOrder(rows, username, n - 1);
      NamedSnoc(rows[..n - 1], rows[n - 1], username);
      assert rows[..n] == rows[..n - 1] + [rows[n - 1]];
    }
  }

  lemma {:induction false} NamedSnoc(rows: seq<Row>, r: Row, username: string)
    ensures Named(rows + [r], username) == Named(rows, username) + if r.name == username then [r] else []
  {
    if rows == [] {
      assert rows + [r] == [r];
      assert Named([r][1..], username) == [];
    } else {
      assert (rows + [r])[1..] == rows[1..] + [r];
      NamedSnoc(rows[1..], r, username);
    }
  }

  /** Where in the listing the k-th of the account's rows is. */
  lemma {:induction false} NamedPosition(rows: seq<Row>, username: string, n: nat, k: nat) returns (p: nat)
    requires n <= |rows| && k < |Named(rows[..n], username)|
    ensures p < n && rows[p] == Named(rows[..n], username)[k] && rows[p].name == username
    ensures EarlierRows(rows, username, p) == k
  {
    NamedInOrder(rows, username, n);
    if rows[n - 1].name == username && k == |Named(rows[..n], username)| - 1 {
      p := n - 1;
      NamedInOrder(rows, username, n - 1);
    } else {
      p := NamedPosition(rows, username, n - 1, k);
    }
  }
}
