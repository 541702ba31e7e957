/**
 * The per-server dispatch loop: for each resolved server in turn, connect,
 * check the key, run the one configured operation, and decide whether a
 * failed operation ends the run. The cache client is an oracle that tells,
 * for the server at each position, whether connecting succeeded and what
 * the operation returned.
 */
module Dispatcher {
  import opened Php
  import opened Resolver

  /** The operations the task can perform. */
  datatype Operation = Add | Set | Delete | Flush

  /** How the `action` attribute spells each operation. */
  function Name(op: Operation): string
  {
    match op
    case Add => "add"
    case Set => "set"
    case Delete => "delete"
    case Flush => "flush"
  }

  /** The `switch` on the action: the operation it names, or none for an unknown action. */
  function ParseAction(action: string): (r: Option<Operation>)
    ensures forall op :: r == Some(op) <==> Name(op) == action
  {
    if action == "add" then Some(Add)
    else if action == "delete" then Some(Delete)
    else if action == "flush" then Some(Flush)
    else if action == "set" then Some(Set)
    else None
  }

  /**
   * What the loop needs to know of the settings: the operation the action
   * names (none for an unknown action), whether the key check passes, and
   * the halt flag.
   */
  datatype Request = Request(op: Option<Operation>, keyed: bool, haltOnFailure: bool)

  /** The request the settings make: a flush needs no key, every other action a non-empty one. */
  function RequestOf(action: string, key: Option<string>, haltOnFailure: bool): (r: Request)
    ensures r.op == ParseAction(action) && r.haltOnFailure == haltOnFailure
    ensures r.keyed <==> r.op == Some(Flush) || !IsEmpty(key)
  {
    Request(ParseAction(action), action == "flush" || !IsEmpty(key), haltOnFailure)
  }

  /** The client's answers at one server: whether `connect` succeeded, and what the operation returned. */
  datatype Reply = Reply(connected: bool, succeeded: bool)

  /** A call made on the cache client. */
  datatype Event = Close | Open(server: Server) | Call(op: Operation, server: Server)

  /** How a run ends; a failure names the server it happened at, when there was one. */
  datatype Outcome = Done | Failed(kind: ErrorKind, at: Option<Server>)

  /** A run's outcome together with the calls it made on the client, in order. */
  datatype Run = Run(outcome: Outcome, events: seq<Event>)

  /** The request names an operation and passes the key check, so it gets dispatched once connected. */
  predicate Dispatchable(req: Request)
  {
    req.keyed && req.op.Some?
  }

  /**
   * The check that ends the run at one server, taken in the code's order:
   * the connection, then the key, then the action, then the operation's
   * result under the halt flag. None lets the loop go on.
   */
  function Verdict(req: Request, reply: Reply): (v: Option<ErrorKind>)
    ensures !reply.connected ==> v == Some(ConnectionError)
    ensures reply.connected && !Dispatchable(req) ==> v == Some(ConfigurationError)
    ensures v == Some(OperationError) <==>
      reply.connected && Dispatchable(req) && !reply.succeeded && req.haltOnFailure
    ensures v == None <==>
      reply.connected && Dispatchable(req) && (reply.succeeded || !req.haltOnFailure)
  {
    if !reply.connected then Some(ConnectionError)
    else if !req.keyed then Some(ConfigurationError)
    else if req.op.None? then Some(ConfigurationError)
    else if !reply.succeeded && req.haltOnFailure then Some(OperationError)
    else None
  }

  /**
   * The calls made at one server: close the previous client if there is one,
   * connect, and, if connected and the request passes its checks, the
   * operation itself.
   */
  function ServerEvents(req: Request, s: Server, reply: Reply, open: bool): seq<Event>
  {
    (if open then [Close] else []) + [Open(s)]
      + (if reply.connected && Dispatchable(req) then [Call(req.op.value, s)] else [])
  }

  /** The first position at or after `i`, below `n`, whose check ends the run; `n` if none does. */
  function FirstStop(req: Request, replies: nat -> Reply, i: nat, n: nat): (k: nat)
    requires i <= n
    ensures i <= k <= n
    ensures forall j :: i <= j < k ==> Verdict(req, replies(j)) == None
    ensures k < n ==> Verdict(req, replies(k)).Some?
    decreases n - i
  {
    if i == n then n
    else if Verdict(req, replies(i)).Some? then i
    else FirstStop(req, replies, i + 1, n)
  }

  /** `FirstStop` is the position of the first failing check, or `n` when every check passes. */
  lemma {:induction false} StopsAt(req: Request, replies: nat -> Reply, i: nat, n: nat, k: nat)
    requires i <= k <= n
    requires forall j :: i <= j < k ==> Verdict(req, replies(j)) == None
    requires k < n ==> Verdict(req, replies(k)).Some?
    ensures FirstStop(req, replies, i, n) == k
    decreases k - i
  {
    if i < k {
      StopsAt(req, replies, i + 1, n, k);
    }
  }

  /** The calls made at the first `i` servers; `open` says whether a client object existed before. */
  function Passed(req: Request, servers: seq<Server>, replies: nat -> Reply, i: nat, open: bool): seq<Event>
    requires i <= |servers|
  {
    if i == 0 then []
    else Passed(req, servers, replies, i - 1, open) + ServerEvents(req, servers[i - 1], replies(i - 1), open || i > 1)
  }

  /** The calls at the first `i + 1` servers: those at the first `i`, then the next server's. */
  lemma PassedNext(req: Request, servers: seq<Server>, replies: nat -> Reply, i: nat, open: bool, prior: seq<Event>)
    requires i < |servers|
    ensures prior + Passed(req, servers, replies, i + 1, open)
      == (prior + Passed(req, servers, replies, i, open)) + ServerEvents(req, servers[i], replies(i), open || i > 0)
  {
  }

  /**
   * A whole run of the loop: every server before the first failing check
   * makes its calls, and the run ends there with that check's error naming
   * that server, or completes when no check fails.
   */
  function RunOver(req: Request, servers: seq<Server>, replies: nat -> Reply, open: bool): Run
  {
    var n := FirstStop(req, replies, 0, |servers|);
    var before := Passed(req, servers, replies, n, open);
    if n == |servers| then Run(Done, before)
    else Run(Failed(Verdict(req, replies(n)).value, Some(servers[n])),
             before + ServerEvents(req, servers[n], replies(n), open || n > 0))
  }

  /** A run whose first failing check is at position `i` ends there, after the calls of the servers before it. */
  lemma RunStopsAt(req: Request, servers: seq<Server>, replies: nat -> Reply, open: bool, i: nat)
    requires i < |servers| && Verdict(req, replies(i)).Some?
    requires forall j :: 0 <= j < i ==> Verdict(req, replies(j)) == None
    ensures RunOver(req, servers, replies, open) == Run(Failed(Verdict(req, replies(i)).value, Some(servers[i])),
      Passed(req, servers, replies, i, open) + ServerEvents(req, servers[i], replies(i), open || i > 0))
  {
    StopsAt(req, replies, 0, |servers|, i);
  }

  /** A run in which every check passes completes, after the calls of every server. */
  lemma RunCompletes(req: Request, servers: seq<Server>, replies: nat -> Reply, open: bool)
    requires forall j :: 0 <= j < |servers| ==> Verdict(req, replies(j)) == None
    ensures RunOver(req, servers, replies, open) == Run(Done, Passed(req, servers, replies, |servers|, open))
  {
    StopsAt(req, replies, 0, |servers|, |servers|);
  }

  /** The servers connected to, in the order of the calls. */
  function Connected(events: seq<Event>): seq<Server>
  {
    if events == [] then []
    else (if events[0].Open? then [events[0].server] else []) + Connected(events[1..])
  }

  /** The servers an operation was sent to, in the order of the calls. */
  function Called(events: seq<Event>): seq<Server>
  {
    if events == [] then []
    else (if events[0].Call? then [events[0].server] else []) + Called(events[1..])
  }

  /** Every operation sent in `events` is the request's. */
  predicate SendsOnly(events: seq<Event>, op: Option<Operation>)
  {
    forall k :: 0 <= k < |events| && events[k].Call? ==> op == Some(events[k].op)
  }

  /**
   * Every connect is immediately preceded by closing the previous client,
   * except a first connect made when no client existed yet.
   */
  predicate ClosesBeforeReconnect(events: seq<Event>, open: bool)
  {
    && (forall k :: 0 < k < |events| && events[k].Open? ==> events[k - 1] == Close)
    && (events != [] ==> if open then events[0] == Close else events[0].Open?)
  }

  lemma {:induction false} ConnectedAppend(a: seq<Event>, b: seq<Event>)
    ensures Connected(a + b) == Connected(a) + Connected(b)
    ensures Called(a + b) == Called(a) + Called(b)
    decreases |a|
  {
    if a != [] {
      assert (a + b)[1..] == a[1..] + b;
      ConnectedAppend(a[1..], b);
    } else {
      assert a + b == b;
    }
  }

  lemma SendsOnlyAppend(a: seq<Event>, b: seq<Event>, op: Option<Operation>)
    requires SendsOnly(a, op) && SendsOnly(b, op)
    ensures SendsOnly(a + b, op)
  {
    forall k | 0 <= k < |a + b| && (a + b)[k].Call?
      ensures op == Some((a + b)[k].op)
    {
      if k >= |a| {
        assert (a + b)[k] == b[k - |a|];
      }
    }
  }

  lemma ClosesAppend(a: seq<Event>, b: seq<Event>, open: bool)
    requires ClosesBeforeReconnect(a, open) && ClosesBeforeReconnect(b, open || a != [])
    ensures ClosesBeforeReconnect(a + b, open)
  {
    var e := a + b;
    forall k | 0 < k < |e| && e[k].Open?
      ensures e[k - 1] == Close
    {
      if k > |a| {
        assert e[k] == b[k - |a|] && e[k - 1] == b[k - 1 - |a|];
      }
    }
    if a == [] {
      assert e == b;
    }
  }

  /** The calls at one server connect to it once, and send it the operation when it gets that far. */
  lemma ServerEventsShape(req: Request, s: Server, reply: Reply, open: bool)
    ensures var e := ServerEvents(req, s, reply, open);
      && Connected(e) == [s]
      && Called(e) == (if reply.connected && Dispatchable(req) then [s] else [])
  {
    var pre := (if open then [Close] else []) + [Open(s)];
    var call := if reply.connected && Dispatchable(req) then [Call(req.op.value, s)] else [];
    ConnectedAppend(pre, call);
    ConnectedAppend(if open then [Close] else [], [Open(s)]);
    assert Connected([Open(s)]) == [s] && Called([Open(s)]) == [];
    if open {
      assert Connected([Close]) == [] && Called([Close]) == [];
    }
    if call != [] {
      assert Connected(call) == [] && Called(call) == [s];
    }
  }

  /** The calls at one server send only the request's operation, and close first when a client exists. */
  lemma ServerEventsDiscipline(req: Request, s: Server, reply: Reply, open: bool)
    ensures var e := ServerEvents(req, s, reply, open);
      SendsOnly(e, req.op) && ClosesBeforeReconnect(e, open) && e != []
  {
  }

  /**
   * The servers a run gets past are each connected to and sent the
   * operation, in list order.
   */
  lemma {:induction false} PassedShape(req: Request, servers: seq<Server>, replies: nat -> Reply, i: nat, open: bool)
    requires i <= |servers|
    requires forall j :: 0 <= j < i ==> Verdict(req, replies(j)) == None
    ensures var e := Passed(req, servers, replies, i, open);
      Connected(e) == servers[..i] && Called(e) == servers[..i]
  {
    if i > 0 {
      var e0 := Passed(req, servers, replies, i - 1, open);
      var here := ServerEvents(req, servers[i - 1], replies(i - 1), open || i > 1);
      assert Passed(req, servers, replies, i, open) == e0 + here;
      PassedShape(req, servers, replies, i - 1, open);
      assert Verdict(req, replies(i - 1)) == None;
      ServerEventsShape(req, servers[i - 1], replies(i - 1), open || i > 1);
      ShapeStep(e0, here, servers, i);
    }
  }

  /** Appending the calls at server `i - 1`, connected and called, extends both lists to the first `i` servers. */
  lemma ShapeStep(e0: seq<Event>, here: seq<Event>, servers: seq<Server>, i: nat)
    requires 0 < i <= |servers|
    requires Connected(e0) == servers[..i - 1] && Called(e0) == servers[..i - 1]
    requires Connected(here) == [servers[i - 1]] && Called(here) == [servers[i - 1]]
    ensures Connected(e0 + here) == servers[..i] && Called(e0 + here) == servers[..i]
  {
    ConnectedAppend(e0, here);
    assert servers[..i - 1] + [servers[i - 1]] == servers[..i];
  }

  /**
   * The calls at the first `i` servers send only the request's operation
   * and keep the close-before-reconnect discipline.
   */
  lemma {:induction false} PassedDiscipline(req: Request, servers: seq<Server>, replies: nat -> Reply, i: nat, open: bool)
    requires i <= |servers|
    ensures var e := Passed(req, servers, replies, i, open);
      SendsOnly(e, req.op) && ClosesBeforeReconnect(e, open) && (e == [] <==> i == 0)
  {
    if i > 0 {
      var e0 := Passed(req, servers, replies, i - 1, open);
      var here := ServerEvents(req, servers[i - 1], replies(i - 1), open || i > 1);
      PassedDiscipline(req, servers, replies, i - 1, open);
      ServerEventsDiscipline(req, servers[i - 1], replies(i - 1), open || i > 1);
      SendsOnlyAppend(e0, here, req.op);
      ClosesAppend(e0, here, open);
    }
  }

  /**
   * How a run ends: completed exactly when every check passes, and
   * otherwise with the error of the first failing check, naming that server.
   */
  lemma RunOutcome(req: Request, servers: seq<Server>, replies: nat -> Reply, open: bool)
    ensures var r := RunOver(req, servers, replies, open);
      && (r.outcome == Done <==> forall j :: 0 <= j < |servers| ==> Verdict(req, replies(j)) == None)
      && (r.outcome.Failed? ==>
            (exists n :: 0 <= n < |servers| && Verdict(req, replies(n)).Some?
              && (forall j :: 0 <= j < n ==> Verdict(req, replies(j)) == None)
              && r.outcome == Failed(Verdict(req, replies(n)).value, Some(servers[n]))))
  {
    var n := FirstStop(req, replies, 0, |servers|);
    if n < |servers| {
      assert Verdict(req, replies(n)) != None;
    }
  }

  /**
   * Who a run contacts: it connects to the servers in list order up to and
   * including the one it stops at, and sends the operation to every server
   * it got past and, when it stops on a failed operation, to that server too.
   */
  lemma RunShape(req: Request, servers: seq<Server>, replies: nat -> Reply, open: bool)
    ensures var n := FirstStop(req, replies, 0, |servers|);
      var e := RunOver(req, servers, replies, open).events;
      && Connected(e) == servers[..if n == |servers| then n else n + 1]
      && Called(e) == servers[..n]
        + (if n < |servers| && Verdict(req, replies(n)) == Some(OperationError) then [servers[n]] else [])
  {
    var n := FirstStop(req, replies, 0, |servers|);
    var before := Passed(req, servers, replies, n, open);
    PassedShape(req, servers, replies, n, open);
    if n < |servers| {
      StopShape(req, servers, replies, open || n > 0, n, before);
    } else {
      assert servers[..n] + [] == servers[..n];
    }
  }

  /** The calls of a run that stops at position `n`: those of the servers before it, then its own. */
  lemma StopShape(req: Request, servers: seq<Server>, replies: nat -> Reply, open: bool, n: nat, before: seq<Event>)
    requires n < |servers| && Verdict(req, replies(n)).Some?
    requires Connected(before) == servers[..n] && Called(before) == servers[..n]
    ensures var e := before + ServerEvents(req, servers[n], replies(n), open);
      && Connected(e) == servers[..n + 1]
      && Called(e) == servers[..n] + (if Verdict(req, replies(n)) == Some(OperationError) then [servers[n]] else [])
  {
    var here := ServerEvents(req, servers[n], replies(n), open);
    ServerEventsShape(req, servers[n], replies(n), open);
    ConnectedAppend(before, here);
    assert servers[..n] + [servers[n]] == servers[..n + 1];
  }

  /**
   * The calls of a run send only the request's operation, and every
   * reconnect closes the previous client first.
   */
  lemma RunDiscipline(req: Request, servers: seq<Server>, replies: nat -> Reply, open: bool)
    ensures var e := RunOver(req, servers, replies, open).events;
      SendsOnly(e, req.op) && ClosesBeforeReconnect(e, open)
  {
    var n := FirstStop(req, replies, 0, |servers|);
    PassedDiscipline(req, servers, replies, n, open);
    if n < |servers| {
      var before := Passed(req, servers, replies, n, open);
      var here := ServerEvents(req, servers[n], replies(n), open || n > 0);
      ServerEventsDiscipline(req, servers[n], replies(n), open || n > 0);
      SendsOnlyAppend(before, here, req.op);
      ClosesAppend(before, here, open);
    }
  }

  /** Every operation a run sends is the one its action attribute names. */
  lemma SendsNamedOperation(action: string, key: Option<string>, haltOnFailure: bool,
                            servers: seq<Server>, replies: nat -> Reply, open: bool)
    ensures var e := RunOver(RequestOf(action, key, haltOnFailure), servers, replies, open).events;
      forall k :: 0 <= k < |e| && e[k].Call? ==> Name(e[k].op) == action
  {
    RunDiscipline(RequestOf(action, key, haltOnFailure), servers, replies, open);
  }

  /** A failed connect ends the run at that server whatever the halt flag says. */
  lemma ConnectFailureIsFatal(req: Request, servers: seq<Server>, replies: nat -> Reply, open: bool, i: nat)
    requires i < |servers|
    requires forall j :: 0 <= j < i ==> Verdict(req, replies(j)) == None
    requires !replies(i).connected
    ensures var r := RunOver(req, servers, replies, open);
      && r.outcome == Failed(ConnectionError, Some(servers[i]))
      && Connected(r.events) == servers[..i + 1]
      && Called(r.events) == servers[..i]
  {
    StopsAt(req, replies, 0, |servers|, i);
    RunShape(req, servers, replies, open);
    assert servers[..i] + [] == servers[..i];
  }

  /**
   * With the halt flag set, a failed operation ends the run with an
   * operation error naming that server, and no later server is contacted.
   */
  lemma HaltStopsAtFailedOperation(req: Request, servers: seq<Server>, replies: nat -> Reply, open: bool, i: nat)
    requires req.haltOnFailure && Dispatchable(req)
    requires i < |servers|
    requires forall j :: 0 <= j < i ==> Verdict(req, replies(j)) == None
    requires replies(i).connected && !replies(i).succeeded
    ensures var r := RunOver(req, servers, replies, open);
      && r.outcome == Failed(OperationError, Some(servers[i]))
      && Connected(r.events) == servers[..i + 1]
      && Called(r.events) == servers[..i + 1]
  {
    StopsAt(req, replies, 0, |servers|, i);
    RunShape(req, servers, replies, open);
    assert servers[..i] + [servers[i]] == servers[..i + 1];
  }

  /**
   * Without the halt flag, failed operations are passed over: when every
   * connect succeeds and the request passes its checks, the run completes
   * and every server is connected to and sent the operation, in order.
   */
  lemma WithoutHaltEveryServerIsTried(req: Request, servers: seq<Server>, replies: nat -> Reply, open: bool)
    requires !req.haltOnFailure && Dispatchable(req)
    requires forall j :: 0 <= j < |servers| ==> replies(j).connected
    ensures var r := RunOver(req, servers, replies, open);
      && r.outcome == Done
      && Connected(r.events) == servers
      && Called(r.events) == servers
  {
    StopsAt(req, replies, 0, |servers|, |servers|);
    RunShape(req, servers, replies, open);
    assert servers[..|servers|] == servers;
  }

  /**
   * A missing key or an unknown action is found only after the first server
   * has been connected to, and ends the run there before any operation.
   */
  lemma MisconfigurationFoundAfterFirstConnect(req: Request, servers: seq<Server>, replies: nat -> Reply, open: bool)
    requires servers != [] && replies(0).connected
    requires !Dispatchable(req)
    ensures var r := RunOver(req, servers, replies, open);
      && r.outcome == Failed(ConfigurationError, Some(servers[0]))
      && Connected(r.events) == [servers[0]]
      && Called(r.events) == []
  {
    StopsAt(req, replies, 0, |servers|, 0);
    RunShape(req, servers, replies, open);
  }

  /** A flush never fails the key check, whatever the key. */
  lemma FlushNeedsNoKey(key: Option<string>, haltOnFailure: bool, servers: seq<Server>, replies: nat -> Reply, open: bool)
    ensures var r := RunOver(RequestOf("flush", key, haltOnFailure), servers, replies, open);
      r.outcome.Failed? ==> r.outcome.kind != ConfigurationError
  {
    assert ParseAction("flush") == Some(Flush);
  }
}
