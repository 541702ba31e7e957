/**
 * Server resolution: turning the task's configuration into the ordered list
 * of (host, port) targets the dispatcher walks. Explicit mode takes the
 * configured host and port; discovery mode scans the build properties for
 * `<prefix>…host` keys and their companion `<prefix>…port` keys.
 */
module Resolver {
  import opened Php

  /** One cache server to contact; both parts are passed to the client as text. */
  datatype Server = Server(host: string, port: string)

  /** The three ways a run can fail. */
  datatype ErrorKind = ConfigurationError | ConnectionError | OperationError

  datatype Result<T> = Ok(value: T) | Fail(kind: ErrorKind)

  /**
   * Explicit mode: the configured host and port form the only server, and
   * the run is a configuration error when either is PHP-empty.
   */
  function ResolveExplicit(host: Option<string>, port: Option<string>): (r: Result<seq<Server>>)
    ensures r.Fail? <==> IsEmpty(host) || IsEmpty(port)
    ensures r.Fail? ==> r.kind == ConfigurationError
    ensures r.Ok? ==> r.value == [Server(host.value, port.value)]
  {
    if IsEmpty(host) || IsEmpty(port) then Fail(ConfigurationError)
    else Ok([Server(host.value, port.value)])
  }

  /** A property the discovery scan looks at: it starts with the prefix and mentions "host". */
  predicate IsHostKey(key: string, prefix: string)
  {
    StartsWith(key, prefix) && Contains(key, "host")
  }

  /**
   * The property holding the port that belongs to a host key: a trailing
   * "host" becomes "port", and any other key is its own port key.
   */
  function PortKey(key: string): (r: string)
    ensures |r| == |key|
    ensures r == key <==> !EndsWith(key, "host")
    ensures EndsWith(key, "host") ==> EndsWith(r, "port") && r[..|key| - 4] == key[..|key| - 4]
  {
    if EndsWith(key, "host") then key[..|key| - 4] + "port" else key
  }

  /**
   * A prefix whose only regular-expression metacharacter, if any, is a
   * final '.': no character of it other than the last is special in a
   * pattern, nor is the pattern delimiter '/', and the last is either '.'
   * or an ordinary ASCII character. (The pattern works on bytes, so a `+`
   * after a character of several bytes would repeat only its last byte.)
   */
  predicate PlainPrefix(prefix: string)
  {
    && prefix != []
    && (forall i :: 0 <= i < |prefix| - 1 ==> !Special(prefix[i]))
    && (prefix[|prefix| - 1] == '.' || !Special(prefix[|prefix| - 1]))
    && (prefix[|prefix| - 1] as int) < 128
  }

  /** The characters a pattern treats specially, and its '/' delimiter. */
  predicate Special(c: char)
  {
    c in {'\\', '^', '$', '.', '|', '?', '*', '+', '(', ')', '[', ']', '{', '}', '/'}
  }

  /**
   * `body` matches `<prefix>+host` in full: the prefix without its last
   * character, then one or more characters the `+` accepts (the last
   * character itself, or, when that is '.', anything but a line break),
   * then "host".
   */
  predicate MatchesHostPattern(body: string, prefix: string)
    requires PlainPrefix(prefix)
  {
    var stem, last := prefix[..|prefix| - 1], prefix[|prefix| - 1];
    && StartsWith(body, stem) && EndsWith(body, "host") && |body| >= |stem| + 1 + 4
    && (forall i :: |stem| <= i < |body| - 4 ==> if last == '.' then body[i] != '\n' else body[i] == last)
  }

  /**
   * The port key as the code derives it, by replacing `^(<prefix>+)host$`
   * with `${1}port`, for a plain prefix. The `$` anchor matches at the end
   * of the key and also just before a final line break, which the
   * replacement then keeps. A key the pattern does not match is left as
   * it is.
   */
  function RegexPortKey(key: string, prefix: string): (r: string)
    requires PlainPrefix(prefix)
    ensures |r| == |key|
    ensures || r == key
            || (EndsWith(key, "host") && r == PortKey(key))
            || (EndsWith(key, "host\n") && r == PortKey(key[..|key| - 1]) + "\n")
  {
    if key != [] && key[|key| - 1] == '\n' then
      var body := key[..|key| - 1];
      if MatchesHostPattern(body, prefix) then body[..|body| - 4] + "port" + "\n" else key
    else if MatchesHostPattern(key, prefix) then key[..|key| - 4] + "port"
    else key
  }

  lemma DefaultPrefixIsPlain()
    ensures PlainPrefix("memcache.")
  {
    assert !Special('m') && !Special('e') && !Special('c') && !Special('a') && !Special('h');
    assert forall i :: 0 <= i < 8 ==> "memcache."[i] in "mecah";
  }

  /** A key under the default prefix that ends in "host" is long enough for the pattern's `.+`. */
  lemma DefaultHostKeyShape(key: string)
    requires StartsWith(key, "memcache.") && EndsWith(key, "host")
    ensures StartsWith(key, "memcache") && |key| >= 8 + 1 + 4
  {
    assert key[..9] == "memcache.";
    assert key[..8] == key[..9][..8] == "memcache";
    assert key[8] == '.';
    assert forall j :: |key| - 4 <= j < |key| ==> key[j] == key[|key| - 4..][j - (|key| - 4)];
    assert forall j :: |key| - 4 <= j < |key| ==> key[j] != '.';
  }

  /**
   * Under the default prefix the pattern and the simple suffix swap agree
   * on every key the scan looks at, barring line breaks.
   */
  lemma DefaultPrefixAgrees(key: string)
    requires StartsWith(key, "memcache.") && '\n' !in key
    ensures RegexPortKey(key, "memcache.") == PortKey(key)
  {
    DefaultPrefixIsPlain();
    if EndsWith(key, "host") {
      DefaultHostKeyShape(key);
      assert "memcache."[..8] == "memcache";
      assert forall i :: 8 <= i < |key| - 4 ==> key[i] != '\n';
    }
  }

  lemma UnderscorePrefixIsPlain()
    ensures PlainPrefix("mc_")
  {
    assert !Special('m') && !Special('c') && !Special('_');
  }

  /**
   * Under the prefix "mc_" the pattern only accepts "mc" followed by
   * underscores before "host", so the host key "mc_1host" keeps its own
   * name as its port key instead of "mc_1port".
   */
  lemma RegexMissesPlainPrefix()
    ensures PlainPrefix("mc_") && RegexPortKey("mc_1host", "mc_") == "mc_1host"
    ensures PortKey("mc_1host") == "mc_1port"
  {
    UnderscorePrefixIsPlain();
    var key := "mc_1host";
    assert key[3] == '1' && 2 <= 3 < |key| - 4;
    assert EndsWith(key, "host");
    assert key[..4] + "port" == "mc_1port";
  }

  /**
   * The `$` anchor also matches just before a final line break: under the
   * prefix "mc_" the key "mc_host" followed by a line break gets the port
   * key "mc_port" followed by a line break, while the suffix swap leaves
   * that key, which does not end in "host", as it is.
   */
  lemma RegexKeepsFinalLineBreak()
    ensures PlainPrefix("mc_") && RegexPortKey("mc_host\n", "mc_") == "mc_port\n"
    ensures PortKey("mc_host\n") == "mc_host\n"
  {
    UnderscorePrefixIsPlain();
    var body := "mc_host";
    assert "mc_host\n"[..7] == body;
    assert body[..2] == "mc" && body[3..] == "host";
    assert MatchesHostPattern(body, "mc_");
    assert body[..3] + "port" + "\n" == "mc_port\n";
    assert "mc_host\n"[4..] != "host";
  }

  /** `key` names a host in `props` whose companion port key is also set. */
  predicate Yields(props: map<string, string>, prefix: string, key: string)
  {
    key in props && IsHostKey(key, prefix) && PortKey(key) in props
  }

  /** The server a yielding host key stands for. */
  function ServerAt(props: map<string, string>, key: string): Server
    requires key in props && PortKey(key) in props
  {
    Server(props[key], props[PortKey(key)])
  }

  /**
   * A host key that mentions "host" but does not end in it (such as
   * `memcache.1.hostname`) is its own port key: it yields a server whose
   * host and port are both its own value.
   */
  lemma HostKeyWithoutHostSuffix(props: map<string, string>, prefix: string, key: string)
    requires key in props && IsHostKey(key, prefix) && !EndsWith(key, "host")
    ensures Yields(props, prefix, key) && ServerAt(props, key) == Server(props[key], props[key])
  {
  }

  /** The host keys among `keys` that yield a server, in the order of `keys`. */
  function HostKeys(props: map<string, string>, prefix: string, keys: seq<string>): seq<string>
    decreases |keys|
  {
    if keys == [] then []
    else
      var last := keys[|keys| - 1];
      HostKeys(props, prefix, keys[..|keys| - 1]) + (if Yields(props, prefix, last) then [last] else [])
  }

  /** The servers emitted by a scan of the properties in the order `keys`. */
  function Collect(props: map<string, string>, prefix: string, keys: seq<string>): seq<Server>
    decreases |keys|
  {
    if keys == [] then []
    else
      var last := keys[|keys| - 1];
      Collect(props, prefix, keys[..|keys| - 1])
        + (if Yields(props, prefix, last) then [ServerAt(props, last)] else [])
  }

  /** The host keys discovery uses, in `ksort` order. */
  ghost function DiscoveredKeys(props: map<string, string>, prefix: string): seq<string>
  {
    HostKeys(props, prefix, SortedKeys(props.Keys))
  }

  /** Discovery mode: the servers found, or a configuration error when there are none. */
  ghost function Discover(props: map<string, string>, prefix: string): Result<seq<Server>>
  {
    var servers := Collect(props, prefix, SortedKeys(props.Keys));
    if servers == [] then Fail(ConfigurationError) else Ok(servers)
  }

  /** A scan in any order emits exactly one server per yielding key, in that order. */
  lemma {:induction false} CollectPointwise(props: map<string, string>, prefix: string, keys: seq<string>)
    ensures var hk := HostKeys(props, prefix, keys); var ss := Collect(props, prefix, keys);
      && |ss| == |hk|
      && (forall i :: 0 <= i < |hk| ==> Yields(props, prefix, hk[i]) && ss[i] == ServerAt(props, hk[i]))
    decreases |keys|
  {
    if keys != [] {
      CollectPointwise(props, prefix, keys[..|keys| - 1]);
    }
  }

  /** The host keys a scan keeps are exactly the yielding keys among those scanned. */
  lemma {:induction false} HostKeysMembers(props: map<string, string>, prefix: string, keys: seq<string>)
    ensures forall k :: k in HostKeys(props, prefix, keys) <==> k in keys && Yields(props, prefix, k)
    decreases |keys|
  {
    if keys != [] {
      var init, last := keys[..|keys| - 1], keys[|keys| - 1];
      HostKeysMembers(props, prefix, init);
      assert keys == init + [last];
    }
  }

  /** A scan in ascending key order keeps its host keys in ascending order. */
  lemma {:induction false} HostKeysAscending(props: map<string, string>, prefix: string, keys: seq<string>)
    requires Ascending(keys)
    ensures Ascending(HostKeys(props, prefix, keys))
    decreases |keys|
  {
    if keys != [] {
      var init, last := keys[..|keys| - 1], keys[|keys| - 1];
      assert Ascending(init) by {
        forall i, j | 0 <= i < j < |init|
          ensures Below(init[i], init[j])
        {
          assert init[i] == keys[i] && init[j] == keys[j];
        }
      }
      HostKeysAscending(props, prefix, init);
      HostKeysMembers(props, prefix, init);
      var hk0 := HostKeys(props, prefix, init);
      forall i | 0 <= i < |hk0|
        ensures Below(hk0[i], last)
      {
        assert hk0[i] in init;
        var j :| 0 <= j < |init| && init[j] == hk0[i];
        assert keys[j] == hk0[i];
      }
    }
  }

  /**
   * What discovery finds: the yielding host keys in ascending key order,
   * one server per key, made of the value at the key and the value at its
   * port key; every other property contributes no server of its own.
   */
  lemma DiscoveredServers(props: map<string, string>, prefix: string)
    ensures var hk := DiscoveredKeys(props, prefix); var r := Discover(props, prefix);
      && Ascending(hk)
      && (forall k :: k in hk <==> Yields(props, prefix, k))
      && (r.Ok? ==> |r.value| == |hk| && forall i :: 0 <= i < |hk| ==> Yields(props, prefix, hk[i]) && r.value[i] == ServerAt(props, hk[i]))
      && (r.Fail? <==> hk == [])
      && (r.Fail? ==> r.kind == ConfigurationError)
  {
    var keys := SortedKeys(props.Keys);
    CollectPointwise(props, prefix, keys);
    HostKeysMembers(props, prefix, keys);
    HostKeysAscending(props, prefix, keys);
  }

  /** Discovery fails exactly when no property yields a server, and otherwise returns at least one. */
  lemma DiscoverFailsIffNoPair(props: map<string, string>, prefix: string)
    ensures Discover(props, prefix).Fail? <==> forall k :: k in props ==> !Yields(props, prefix, k)
    ensures Discover(props, prefix).Ok? ==> |Discover(props, prefix).value| > 0
  {
    DiscoveredServers(props, prefix);
    var hk := DiscoveredKeys(props, prefix);
    if hk != [] {
      assert hk[0] in hk;
    }
  }

  /** Scanning one more key appends that key's server, if it yields one. */
  lemma CollectStep(props: map<string, string>, prefix: string, keys: seq<string>, i: nat)
    requires i < |keys|
    ensures Yields(props, prefix, keys[i]) ==>
      Collect(props, prefix, keys[..i + 1]) == Collect(props, prefix, keys[..i]) + [ServerAt(props, keys[i])]
    ensures !Yields(props, prefix, keys[i]) ==>
      Collect(props, prefix, keys[..i + 1]) == Collect(props, prefix, keys[..i])
  {
    assert keys[..i + 1][..i] == keys[..i];
    assert Collect(props, prefix, keys[..i]) + [] == Collect(props, prefix, keys[..i]);
  }

  /**
   * `_findAllKeys`: sort the properties by key, walk them in order, keep
   * each prefixed host key whose port key is set, and fail when nothing
   * was found.
   */
  method FindAllKeys(properties: map<string, string>, prefix: string) returns (r: Result<seq<Server>>)
    ensures r == Discover(properties, prefix)
  {
    var keys := KSort(properties.Keys);
    var servers: seq<Server> := [];
    var i := 0;
    while i < |keys|
      invariant 0 <= i <= |keys|
      invariant servers == Collect(properties, prefix, keys[..i])
    {
      var key := keys[i];
      CollectStep(properties, prefix, keys, i);
      if !StartsWith(key, prefix) || !Contains(key, "host") {
        i := i + 1;
        continue;
      }
      var portKey := PortKey(key);
      if portKey !in properties {
        i := i + 1;
        continue; // incomplete host/port pair
      }
      servers := servers + [Server(properties[key], properties[portKey])];
      i := i + 1;
    }
    assert keys[..i] == keys;
    if servers == [] {
      r := Fail(ConfigurationError);
    } else {
      r := Ok(servers);
    }
  }
}
