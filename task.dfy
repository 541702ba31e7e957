/**
 * The build task itself: its configuration fields, the client handle it
 * replaces on every connect, and `main`, which resolves the servers and then
 * runs the configured operation against each of them in turn.
 */
module Task {
  import opened Php
  import opened Resolver
  import opened Dispatcher

  /** The task's configuration as the build file sets it. */
  datatype Settings = Settings(
    action: string,
    host: Option<string>,
    port: Option<string>,
    key: Option<string>,
    useProperties: bool,
    propertiesPrefix: string,
    haltOnFailure: bool)

  /** The servers a run works on, or the configuration error that ends it before any connection. */
  ghost function Servers(s: Settings, properties: map<string, string>): Result<seq<Server>>
  {
    if s.useProperties then Discover(properties, s.propertiesPrefix)
    else ResolveExplicit(s.host, s.port)
  }

  /** A whole run of `main`: resolution, then the dispatch loop over the servers found. */
  ghost function Execute(s: Settings, properties: map<string, string>, replies: nat -> Reply, open: bool): Run
  {
    match Servers(s, properties)
    case Fail(kind) => Run(Failed(kind, None), [])
    case Ok(servers) => RunOver(RequestOf(s.action, s.key, s.haltOnFailure), servers, replies, open)
  }

  /**
   * In discovery mode, when no property yields a host/port pair the run is
   * a configuration error and no server is contacted.
   */
  lemma NoDiscoveredServerContactsNobody(
    s: Settings, properties: map<string, string>, replies: nat -> Reply, open: bool)
    requires s.useProperties
    requires forall k :: k in properties ==> !Yields(properties, s.propertiesPrefix, k)
    ensures Execute(s, properties, replies, open) == Run(Failed(ConfigurationError, None), [])
  {
    DiscoverFailsIffNoPair(properties, s.propertiesPrefix);
  }

  /**
   * In explicit mode a run fails with a configuration error, contacting
   * nobody, when host or port is empty, and otherwise talks to exactly the
   * configured server.
   */
  lemma ExplicitModeUsesConfiguredServer(
    s: Settings, properties: map<string, string>, replies: nat -> Reply, open: bool)
    requires !s.useProperties
    ensures var r := Execute(s, properties, replies, open);
      if IsEmpty(s.host) || IsEmpty(s.port) then r == Run(Failed(ConfigurationError, None), [])
      else (Connected(r.events) == [Server(s.host.value, s.port.value)]
        && (r.outcome.Failed? ==> r.outcome.at == Some(Server(s.host.value, s.port.value))))
  {
    if !(IsEmpty(s.host) || IsEmpty(s.port)) {
      var servers := [Server(s.host.value, s.port.value)];
      RunShape(RequestOf(s.action, s.key, s.haltOnFailure), servers, replies, open);
    }
  }

  /**
   * A sample run in explicit mode with the halt flag set: the one server is
   * connected to and sent the `set`, which fails, so the run ends with an
   * operation error naming that server.
   */
  lemma HaltSample()
    ensures var s := Settings("set", Some("h"), Some("11211"), Some("k"), false, "memcache.", true);
      Execute(s, map[], (i: nat) => Reply(true, false), false)
        == Run(Failed(OperationError, Some(Server("h", "11211"))), [Open(Server("h", "11211")), Call(Set, Server("h", "11211"))])
  {
    var s := Settings("set", Some("h"), Some("11211"), Some("k"), false, "memcache.", true);
    var replies := (i: nat) => Reply(true, false);
    var servers := [Server("h", "11211")];
    var req := RequestOf("set", Some("k"), true);
    assert ParseAction("set") == Some(Set);
    assert !IsEmpty(Some("k"));
    assert req == Request(Some(Set), true, true);
    RunStopsAt(req, servers, replies, false, 0);
  }

  class MemcacheTask {
    var action: string
    var host: Option<string>
    var port: Option<string>
    var key: Option<string>
    var useProperties: bool
    var propertiesPrefix: string
    var haltOnFailure: bool
    /** Whether the task holds a client object from an earlier connect. */
    var hasClient: bool
    /** Every call made on a cache client so far, in order. */
    var calls: seq<Event>

    /** The configuration fields, as one value. */
    function Current(): Settings
      reads this`action, this`host, this`port, this`key
      reads this`useProperties, this`propertiesPrefix, this`haltOnFailure
    {
      Settings(action, host, port, key, useProperties, propertiesPrefix, haltOnFailure)
    }

    /** A fresh task: no action, host, port or key; prefix "memcache."; explicit mode; no halting. */
    constructor ()
      ensures Current() == Settings("", None, None, None, false, "memcache.", false)
      ensures !hasClient && calls == []
    {
      action := "";
      host := None;
      port := None;
      key := None;
      useProperties := false;
      propertiesPrefix := "memcache.";
      haltOnFailure := false;
      hasClient := false;
      calls := [];
    }

    /**
     * `_connect`: close the client held from before, if any, take a new
     * one and connect it; the caller fails the run when this returns false.
     */
    method Connect(server: Server, reply: Reply) returns (ok: bool)
      modifies this`hasClient, this`calls
      ensures ok == reply.connected
      ensures hasClient
      ensures calls == old(calls) + (if old(hasClient) then [Close] else []) + [Open(server)]
    {
      if hasClient {
        calls := calls + [Close];
      }
      hasClient := true;
      calls := calls + [Open(server)];
      ok := reply.connected;
    }

    /**
     * `main`: resolve the servers, explicitly or by discovery, then run the
     * dispatch loop over them. `replies(i)` is the client's behaviour at the
     * i-th server.
     */
    method Perform(properties: map<string, string>, replies: nat -> Reply) returns (outcome: Outcome)
      modifies this`hasClient, this`calls
      ensures var r := Execute(Current(), properties, replies, old(hasClient));
        outcome == r.outcome && calls == old(calls) + r.events
      ensures hasClient == (old(hasClient) || Servers(Current(), properties).Ok?)
    {
      var servers: seq<Server>;
      if useProperties {
        var found := FindAllKeys(properties, propertiesPrefix);
        if found.Fail? {
          return Failed(found.kind, None);
        }
        servers := found.value;
        DiscoverFailsIffNoPair(properties, propertiesPrefix);
      } else {
        var given := ResolveExplicit(host, port);
        if given.Fail? {
          return Failed(given.kind, None);
        }
        servers := given.value;
      }
      outcome := Dispatch(servers, replies);
    }

    /**
     * The loop of `main`: each server in list order, stopping at the first
     * one whose check fails.
     */
    method Dispatch(servers: seq<Server>, replies: nat -> Reply) returns (outcome: Outcome)
      modifies this`hasClient, this`calls
      ensures var r := RunOver(RequestOf(action, key, haltOnFailure), servers, replies, old(hasClient));
        outcome == r.outcome && calls == old(calls) + r.events
      ensures hasClient == (old(hasClient) || servers != [])
    {
      ghost var req := RequestOf(action, key, haltOnFailure);
      ghost var open := hasClient;
      var i := 0;
      while i < |servers|
        invariant 0 <= i <= |servers|
        invariant req == RequestOf(action, key, haltOnFailure)
        invariant hasClient == (open || i > 0)
        invariant forall j :: 0 <= j < i ==> Verdict(req, replies(j)) == None
        invariant calls == old(calls) + Passed(req, servers, replies, i, open)
      {
        var stop := Visit(servers[i], replies(i));
        PassedNext(req, servers, replies, i, open, old(calls));
        if stop.Some? {
          RunStopsAt(req, servers, replies, open, i);
          return Failed(stop.value, Some(servers[i]));
        }
        i := i + 1;
      }
      RunCompletes(req, servers, replies, open);
      outcome := Done;
    }

    /**
     * One pass of the loop body: connect (always fatal on failure), check
     * the key unless the action is a flush, dispatch the action (an unknown
     * one is fatal), and report a failed operation when the halt flag is
     * set. The result is the error that ends the run, if any.
     */
    method Visit(server: Server, reply: Reply) returns (stop: Option<ErrorKind>)
      modifies this`hasClient, this`calls
      ensures stop == Verdict(RequestOf(action, key, haltOnFailure), reply)
      ensures hasClient
      ensures calls == old(calls) + ServerEvents(RequestOf(action, key, haltOnFailure), server, reply, old(hasClient))
    {
      var connected := Connect(server, reply);
      if !connected {
        return Some(ConnectionError);
      }
      if action != "flush" && IsEmpty(key) {
        return Some(ConfigurationError);
      }
      var op := ParseAction(action);
      if op.None? {
        return Some(ConfigurationError);
      }
      calls := calls + [Call(op.value, server)];
      var returnValue := reply.succeeded;
      if !returnValue && haltOnFailure {
        return Some(OperationError);
      }
      return None;
    }
  }
}
