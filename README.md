# Memcache build task — a Dafny model

This project models the logic of Phing's `MemcacheTask`, a build task that runs one
cache operation (`add`, `set`, `delete` or `flush`) against one or more memcache
servers. It proves properties of that model. The model covers two parts of the
task.

- **Server resolution.** In explicit mode, the configured `host` and `port` form a
  one-element server list, and an empty host or port (in PHP's `empty()` sense) is a
  configuration error. In discovery mode (`_findAllKeys`), the build properties are
  sorted by key with `ksort`. Every key that starts with the prefix and mentions
  `host` is a candidate. Its port key is the same key with a trailing `host` turned
  into `port`. Each candidate whose port key is set yields a (host, port) server, in
  key order. Finding no server is a configuration error.
- **The dispatch loop** (`main`, with `_connect`). The servers are visited in list
  order. At each server the task:
  1. closes the client it already holds, if any, and connects a new one; a failed
     connect ends the run;
  2. checks that a key is set unless the action is `flush`;
  3. dispatches the named operation, or fails on an unknown action;
  4. ends the run on a failed operation only when `haltOnFailure` is set.

The cache client is an oracle, `replies: nat -> Reply`. For the server at each
position, it says whether `connect` succeeded and what the operation returned. The
model records every call made on the client (close, connect, operation) as an
`Event`. A run ends as `Done` or as `Failed(kind, at)`, where `kind` is one of three
error kinds and `at` names the server where the failure happened.

Files:

- `php.dfy` (module `Php`) holds the PHP built-ins the logic relies on: `empty()`,
  `strpos`-based prefix and substring tests, the string order `ksort` uses, and
  `ksort` on a key set.
- `resolver.dfy` (module `Resolver`) covers explicit resolution, port-key
  derivation, and discovery. Discovery has two parts: the method `FindAllKeys`, and
  the specification `Discover` that it is proved against.
- `dispatcher.dfy` (module `Dispatcher`) holds the specification of the loop.
  `RunOver` describes a whole run: the calls at every server before the first
  failing check, then the calls at that server. The module also holds the lemmas
  about what a run contacts and how it ends.
- `task.dfy` (module `Task`) has the class `MemcacheTask`. Its fields are the task's
  configuration, whether a client object is held, and the log of client calls. Its
  methods are `Perform` (the task's `main`), the loop `Dispatch`, one loop pass `Visit`, and `Connect`. Each
  is proved against the specification functions.
- `discovery_samples.dfy` (module `DiscoverySamples`) holds a worked discovery
  example on concrete properties.

Note the order of the checks in `main`: it connects to a server (line 180) before its
key check (line 182) and its `switch` (line 188). So an unknown action or a missing key
fails only after a successful connect, and a failed connect is reported first. See
`Dispatcher.Verdict` and `Dispatcher.MisconfigurationFoundAfterFirstConnect`.

## Model

| member | source | states |
|---|---|---|
| Php.IsEmpty | tasks/MemcacheTask.php:170 | defines PHP `empty()` on a setting: null, `""` and `"0"` are empty, every other string is not |
| Php.StartsWith | tasks/MemcacheTask.php:246 | defines `strpos($key, $prefix) === 0`: the prefix occurs at offset 0 of the key (so the empty prefix matches every key) |
| Php.ContainsIff | tasks/MemcacheTask.php:246 | the scan `Contains`, which models `strpos($key, 'host') !== false`, succeeds exactly when the text occurs at some offset of the key |
| Php.BelowIrreflexive | tasks/MemcacheTask.php:244 | no key sorts before itself under the `ksort` string order |
| Php.BelowTransitive | tasks/MemcacheTask.php:244 | the `ksort` string order is transitive |
| Php.BelowTotal | tasks/MemcacheTask.php:244 | any two distinct keys are ordered one way or the other |
| Php.AscendingUnique | tasks/MemcacheTask.php:244 | two strictly ascending key sequences with the same keys are equal, so the sorted order of a key set is unique |
| Php.SortedKeys | tasks/MemcacheTask.php:244 | the sorted keys of a set are strictly ascending and hold exactly the keys of the set |
| Php.Least | tasks/MemcacheTask.php:244 | the scan returns the least key of a non-empty key set |
| Php.KSort | tasks/MemcacheTask.php:244 | `ksort` leaves the keys strictly ascending, each key exactly once, equal to `SortedKeys` |
| Resolver.ResolveExplicit | tasks/MemcacheTask.php:170-176 | explicit mode fails exactly when host or port is PHP-empty, with a configuration error; otherwise it yields the single server (host, port) |
| Resolver.PortKey | tasks/MemcacheTask.php:250 | a key ending in `host` gets that suffix replaced by `port`, with everything before it kept and the length unchanged; any other key is its own port key, and only such keys are |
| Resolver.RegexPortKey | tasks/MemcacheTask.php:250 | for a prefix whose only metacharacter is a final `.` and whose last character is ASCII, the pattern keeps the key's length and either leaves the key unchanged, or performs the suffix swap of `PortKey`, or, for a key ending in `host` and a line break, swaps the suffix before that line break and keeps it |
| Resolver.RegexKeepsFinalLineBreak | tasks/MemcacheTask.php:250 | because `$` also matches just before a final line break, under the prefix `mc_` the key `mc_host` plus a line break gets `mc_port` plus a line break as its port key, while the suffix swap leaves it unchanged |
| Resolver.DefaultPrefixAgrees | tasks/MemcacheTask.php:71 | under the default prefix `memcache.`, the pattern as written and the suffix swap give the same port key for every key the scan considers (without line breaks) |
| Resolver.RegexMissesPlainPrefix | tasks/MemcacheTask.php:250 | under the prefix `mc_`, the pattern leaves the host key `mc_1host` unchanged, while the intended port key is `mc_1port` |
| Resolver.HostKeyWithoutHostSuffix | tasks/MemcacheTask.php:246-256 | a host key that mentions but does not end in `host` (e.g. `memcache.1.hostname`) yields a server whose port is its own value |
| Resolver.CollectPointwise | tasks/MemcacheTask.php:245-257 | a scan emits exactly one server per yielding key, in scan order, made of the host key's value and its port key's value |
| Resolver.HostKeysMembers | tasks/MemcacheTask.php:246-254 | a key is kept exactly when it was scanned, starts with the prefix, mentions `host` and has its port key set; every other key contributes nothing |
| Resolver.HostKeysAscending | tasks/MemcacheTask.php:244-256 | a scan in ascending key order keeps its host keys in ascending order |
| Resolver.Discover | tasks/MemcacheTask.php:240-264 | defines `_findAllKeys` as a function: scan the keys in `ksort` order, keep one server per yielding key, and fail with a configuration error when none is kept |
| Resolver.DiscoveredServers | tasks/MemcacheTask.php:240-264 | discovery emits the yielding host keys in ascending key order, one server per key with values from the key and its port key, and fails with a configuration error exactly when there are none |
| Resolver.DiscoverFailsIffNoPair | tasks/MemcacheTask.php:259-263 | discovery fails exactly when no property yields a host/port pair; on success the list is non-empty |
| Resolver.CollectStep | tasks/MemcacheTask.php:245-257 | scanning one more key appends that key's server when it yields one and leaves the list unchanged otherwise |
| Resolver.FindAllKeys | tasks/MemcacheTask.php:240-264 | the sort-then-scan loop returns exactly `Discover` of the properties and prefix |
| Dispatcher.ParseAction | tasks/MemcacheTask.php:188-207 | the `switch` recognises exactly the four spellings `add`, `set`, `delete`, `flush`, and maps each to its own operation |
| Dispatcher.RequestOf | tasks/MemcacheTask.php:182-184 | the key check passes exactly for a flush or a non-empty key |
| Dispatcher.Verdict | tasks/MemcacheTask.php:180-211 | a failed connect is a connection error whatever the halt flag; once connected, a missing key or unknown action is a configuration error; a failed operation is an operation error exactly when the halt flag is set; otherwise the loop goes on |
| Dispatcher.FirstStop | tasks/MemcacheTask.php:179-212 | the loop stops at the first position whose check fails, and every check before it passes |
| Dispatcher.StopsAt | tasks/MemcacheTask.php:179-212 | any position whose check fails, with all earlier checks passing, is the stopping position |
| Dispatcher.PassedNext | tasks/MemcacheTask.php:179-212 | the calls at the first i+1 servers are those at the first i, then the next server's |
| Dispatcher.RunStopsAt | tasks/MemcacheTask.php:179-212 | a run whose first failing check is at a position ends there with that error, after the calls of the servers before it and that server's own |
| Dispatcher.RunCompletes | tasks/MemcacheTask.php:179-212 | a run in which every check passes completes, after the calls of every server |
| Dispatcher.ServerEventsShape | tasks/MemcacheTask.php:180-204 | the calls at one server connect to it exactly once and send it the operation exactly when it is connected and the request passes its checks |
| Dispatcher.ServerEventsDiscipline | tasks/MemcacheTask.php:221-231 | the calls at one server close the held client first exactly when there is one, and send only the request's operation |
| Dispatcher.PassedShape | tasks/MemcacheTask.php:179-212 | every server the loop gets past is connected to and sent the operation, in list order |
| Dispatcher.PassedDiscipline | tasks/MemcacheTask.php:221-227 | across the servers passed, every reconnect is immediately preceded by closing the old client |
| Dispatcher.ServerEvents | tasks/MemcacheTask.php:180-204 | defines one loop pass's client calls: close the held client if any, connect, then the operation when connected and the request passes the key and action checks |
| Dispatcher.RunOver | tasks/MemcacheTask.php:179-212 | defines a whole run of the loop: the calls at every server before the first failing check, then that server's calls, ending with its error or `Done` |
| Dispatcher.RunOutcome | tasks/MemcacheTask.php:179-212 | a run completes exactly when every check passes; otherwise it fails with the error of the first failing check, naming that server |
| Dispatcher.RunShape | tasks/MemcacheTask.php:179-212 | a run connects to the servers in list order up to and including the one it stops at. It sends the operation to each server it got past, and also to the stopping server when it stops on a failed operation |
| Dispatcher.StopShape | tasks/MemcacheTask.php:179-212 | the calls of a run that stops at position n connect to the first n+1 servers and call the first n, plus server n on an operation failure |
| Dispatcher.RunDiscipline | tasks/MemcacheTask.php:221-227 | a whole run sends only the request's operation, and every reconnect closes the previous client first |
| Dispatcher.SendsNamedOperation | tasks/MemcacheTask.php:188-204 | every operation a run sends is the one the action attribute spells |
| Dispatcher.ConnectFailureIsFatal | tasks/MemcacheTask.php:228-230 | a failed connect ends the run at that server with a connection error, whatever the halt flag; no later server is contacted |
| Dispatcher.HaltStopsAtFailedOperation | tasks/MemcacheTask.php:209-211 | with the halt flag set, a failed operation ends the run with an operation error naming that server; no later server is connected to |
| Dispatcher.WithoutHaltEveryServerIsTried | tasks/MemcacheTask.php:179-212 | without the halt flag, and with every connect succeeding, the run completes whatever the operations return; every server is connected to and sent the operation, in order |
| Dispatcher.MisconfigurationFoundAfterFirstConnect | tasks/MemcacheTask.php:180-206 | a missing key or unknown action is found only after the first server is connected to, and ends the run there before any operation |
| Dispatcher.FlushNeedsNoKey | tasks/MemcacheTask.php:182 | a flush never fails with a configuration error, whatever the key |
| Task.Execute | tasks/MemcacheTask.php:165-213 | defines `main`: resolve the servers by discovery or explicitly, failing before any connection when that fails, then run the loop over them |
| Task.NoDiscoveredServerContactsNobody | tasks/MemcacheTask.php:167-168 | in discovery mode with no host/port pair, the run is a configuration error and contacts no server |
| Task.ExplicitModeUsesConfiguredServer | tasks/MemcacheTask.php:169-180 | in explicit mode, an empty host or port fails before any connection; otherwise the run connects to exactly the configured server, and any failure names it |
| Task.HaltSample | tasks/MemcacheTask.php:165-213 | a halting `set` on one server whose operation fails: connect, `set`, then an operation error naming the server |
| Task.MemcacheTask.constructor | tasks/MemcacheTask.php:64-78 | a new task is in explicit mode, with prefix `memcache.`, halt flag off, no client and no calls |
| Task.MemcacheTask.Connect | tasks/MemcacheTask.php:221-231 | `_connect` closes the held client if there is one, connects a new one, reports whether connecting succeeded, and leaves a client held |
| Task.MemcacheTask.Visit | tasks/MemcacheTask.php:180-211 | one loop pass makes the server's calls and returns exactly the check that ends the run there, if any |
| Task.MemcacheTask.Dispatch | tasks/MemcacheTask.php:179-212 | the loop's outcome and call log are those of `RunOver` for the task's action, key and halt flag; a client is held afterwards exactly when one was before or some server was visited |
| Task.MemcacheTask.Perform | tasks/MemcacheTask.php:165-213 | `main` resolves the servers (discovery or explicit) and runs the loop; its outcome and call log are exactly those of `Execute`, and it holds a client afterwards exactly when it held one before or resolution succeeded |
| DiscoverySamples.SortedSample | tasks/MemcacheTask.php:244 | `ksort` orders the sample keys host a, port a, host b |
| DiscoverySamples.PortKeySample | tasks/MemcacheTask.php:250 | the sample host keys map to their `port` companions |
| DiscoverySamples.DiscoverSample | tasks/MemcacheTask.php:240-264 | discovery over a complete pair, its port property, and a host with no port property finds exactly the complete pair |
| DiscoverySamples.DiscoverNothingSample | tasks/MemcacheTask.php:259-261 | under a prefix no property starts with, discovery is a configuration error |

## Left out

- The real `Memcache` client (`connect`, `close`, `add`, `set`, `delete`, `flush`) and its wire protocol. The oracle `replies` stands in for them, so the cache semantics of add and set are not modelled.
- The record `value` payload and the `setValue` setter: the value only passes through to the client.
- The plain field setters (lines 85-158): the model's fields are set directly. The `(bool)` casts in `setUseProperties` and `setHaltOnFailure` are not modelled; those fields are booleans from the start.
- PHP's `null` for an unset `action`: the model uses `""`. Both fail the `flush` test and the `switch` in the same way.
- The Phing base class, `project->getProperties()` and `log(...)`: the property map is a parameter and log text is not modelled.
- Exception message texts: three error kinds stand in for them (configuration, connection, operation).
- Resolver.PortKey: it models the port-key pattern as a suffix swap. That agrees with the pattern under the default prefix for every key without a line break (`Resolver.DefaultPrefixAgrees`), but not for every prefix; see Findings. Under the default prefix the agreement leaves out every key containing a line break, wherever it occurs: `.` does not match a line break, and `$` also matches just before a final one (`Resolver.RegexKeepsFinalLineBreak`). So the pattern and the swap can differ on such keys: the pattern leaves `memcache.a\nhost` unchanged, where the swap gives `memcache.a\nport`.
- Resolver.RegexPortKey: it models the pattern only for prefixes whose sole metacharacter is a final `.` and whose last character is ASCII. Prefixes with other metacharacters are not modelled. Nor is a last prefix character of several bytes in UTF-8: the pattern works on bytes without the `u` modifier, so its `+` repeats only that character's last byte.
- An empty prefix is taken to match every key, as `strpos($key, '')` does in PHP 8; older PHP versions return `false` there.
- PHP's conversion of decimal-integer property keys to integer array keys, and the mixed comparison `ksort` then applies: keys are strings in character order.
- Discovery does not check that a discovered host or port value is non-empty, and neither does the model.
- Discovery returns the servers as a `Result`, and `Perform` passes them on. The intermediate PHP array of `host`/`port` records is a sequence of `Server` values.

## Findings

| source | as written | input that shows it | evidently intended | confidence | as-written member | corrected member |
|---|---|---|---|---|---|---|
| tasks/MemcacheTask.php:250 | the prefix is spliced unescaped into `/^(<prefix>+)host$/`. The `+` repeats only the prefix's last character, so a host key is rewritten only when the characters between the prefix and `host` repeat that character, or, for a final `.`, are any characters | prefix `mc_` with properties `mc_1host` and `mc_1port`: the port key stays `mc_1host`, so the server's port is the host's own value | replace the trailing `host` of every discovered host key with `port` | high (not executed) | Resolver.RegexMissesPlainPrefix | Resolver.PortKey |
