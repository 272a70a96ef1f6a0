# clash-kit control façade, modelled in Dafny

clash-kit wraps the Clash proxy engine for a mobile host. It has two façades:

- `clash.go` is the tun2socks variant, with the globals `stack`, `basic`, `logger` and `receiver`.
- `clash/clash.go` is the client variant, with the globals `base` and `client`.

Both façades decide a few things over engine state:
- whether the façade has been set up;
- which proxy groups a selector patch changes;
- how a mode string becomes a tunnel mode;
- which configuration a profile switch applies;
- which log events reach the host.

This project models those decisions and proves what they guarantee.

The engine is one class, `EngineState.Engine`, with these fields:
- the set-up flag and the base configuration;
- the proxy registry (`tunnel.Proxies()`), a map from name to `Selector(members, current)` or `Other`;
- the tunnel mode and the set of open connections;
- the log bus's minimum level;
- a `history` of what the façades asked the engine to do (close a connection, set a mode, apply a configuration). The history makes the order of those requests observable.

Each Go package function is a module-level method that takes the engine, which stands for the package globals.

Calls into code outside the repository are inputs to the model:
- The JSON decode of a patch is an `Option<map<string, string>>`.
- A configuration parse is an `Option<Config>`.
- Go's unspecified map-iteration order is a sequence `order`. The `requires` says it lists every registry key exactly once, which is what `range` guarantees. Every property holds for every such order.
- The connection snapshot is a sequence that lists every open connection.
- The outcome of the latency probe's race is a `ProbeOutcome`.

Assumptions about the engine, which this model cannot see:
- `Selector.Set(m)` succeeds iff `m` is a member of the group, and then selects `m` (`Groups.SelectorSet`).
- `T.ModeMapping` and `L.LogLevelMapping` are exact, case-sensitive maps from the lower-case names. A missing key gives Go's zero value: `Global` for a mode, `Debug` for a level.
- A fresh engine is in rule mode at info level.
- `executor.ApplyConfig` sets the tunnel mode and the log level from the configuration's general settings. It also rebuilds the proxy registry from the configuration; the model leaves the registry unconstrained after it.

Some of what the code does is easy to miss. The model follows the code in each of these cases:
- `SetTunnelMode` (clash.go) does not validate its argument. An unknown name, or a name in upper case, drains all connections and selects `Global`. `Modes.UpperCaseRuleDiffers` shows this for `"RULE"`.
- `PatchTunnelMode` (clash/clash.go) does validate its argument, but it does not drain connections.
- `SetConfig` returns no error when the façade has not been set up.
- `SetLogLevel` maps an unknown level name to `Debug`.
- `GetProxyDelay` has no set-up guard.

## Model

| member | source | states |
|---|---|---|
| `Modes.LowerChar` | clash/clash.go:153 | Go's `unicode.ToLower` wherever the result is an ASCII letter; other characters are kept. A character changes only into an ASCII lower-case letter, and the result is such a letter iff the input is an ASCII letter, the dotted capital I (U+0130) or the Kelvin sign (U+212A) |
| `Modes.Lower` | clash/clash.go:153 | Go's `strings.ToLower` wherever the result is an ASCII letter; other characters are kept. It keeps the length and folds every character by `LowerChar` |
| `Modes.ParseMode` | clash/clash.go:151-162 | a string is accepted iff its lower-case form is one of the three mode names, and the accepted mode is the one with that name |
| `Modes.ModeMapping` | clash.go:115 | an exact lower-case mode name maps to its mode; any other string maps to `Global` |
| `Modes.ParseModeAcceptsNames` | clash/clash.go:153-159 | every mode's name is accepted in lower case and in upper case, and gives that mode |
| `Modes.ModeMappingVersusParseMode` | clash/clash.go:153-162 | the two façades agree on lower-case names; a string the client façade rejects selects `Global` in the tun2socks façade |
| `Modes.DottedCapitalIParses` | clash/clash.go:153 | `strings.ToLower` turns the dotted capital I into `i`, so `"DİRECT"` is accepted as `Direct` by `PatchTunnelMode`, while `SetTunnelMode` maps it to `Global` |
| `Modes.UpperCaseRuleDiffers` | clash.go:115 | `"RULE"` selects `Global` through `SetTunnelMode` but `Rule` through `PatchTunnelMode` |
| `Logging.LevelMapping` | clash.go:146 | an exact level name maps to its level; any other string maps to `Debug` |
| `Logging.Passes` | clash.go:157-163 | definition of the level filter: an event passes iff a logger is registered and its level is at least the threshold (also clash/clash.go:97, with the logger always present) |
| `Logging.Forwarded` | clash.go:156-165 | the relay forwards no more events than it receives, and every forwarded event passes the filter |
| `Logging.ForwardedExactly` | clash.go:157-163 | an event reaches the sink iff it was produced, a logger is registered and its level is at least the threshold |
| `Logging.ForwardedInOrder` | clash.go:156-165 | forwarded events are a subsequence of the produced events, in their original order |
| `Logging.LogBuffer.constructor` | clash/clash.go:83 | the relay buffer starts empty, and its capacity is 1024 |
| `Logging.LogBuffer.Offer` | clash/clash.go:89-92 | an event is appended iff the buffer holds fewer than 1024 events; otherwise it is dropped and the buffer is unchanged |
| `Logging.LogBuffer.Take` | clash/clash.go:96 | a receive yields the oldest buffered event and removes it; an empty buffer yields nothing |
| `Groups.SelectorSet` | clash.go:106 | assumed `Set` behaviour: it succeeds iff the member belongs to the group, and then it selects that member and keeps the members |
| `Groups.ApplyAll` | clash.go:93-107 | the registry keeps its keys; unnamed and non-selector groups are unchanged; a named selector selects the requested member if it has it, and is otherwise unchanged |
| `Groups.ApplyAllIdempotent` | clash.go:93-107 | applying the same patch twice changes nothing more |
| `Groups.FirstSuccess` | clash/clash.go:61-79 | the first-success walk keeps the registry's keys, and when it reports false the registry is unchanged |
| `Groups.FirstSuccessPicksFirst` | clash/clash.go:61-79 | first-success returns true iff some visited group is settable; then it changes exactly the first settable group in visiting order; otherwise it changes nothing |
| `Groups.FirstSuccessOutcome` | clash/clash.go:61-79 | when every group is visited, the boolean does not depend on the order: it is true iff some group is settable |
| `Groups.FirstSuccessChangesAtMostOne` | clash/clash.go:74-77 | at most one group changes, and a changed group takes the value apply-all would give it |
| `Configs.ProfileOverride` | clash.go:76-78 | the applied profile takes the base's general settings and has DNS and store-selected off; every other field is the profile's |
| `Configs.ProfileOverrideIdempotent` | clash.go:76-78 | overriding an already overridden profile gives the same configuration |
| `EngineState.Engine.constructor` | clash.go:21-26 | before setup the façade is not initialized, has no base configuration and has an empty history |
| `EngineState.Engine.Close` | clash.go:121 | closing removes the connection and records the close |
| `EngineState.Engine.SetMode` | clash/clash.go:165 | the mode becomes the given one and the change is recorded |
| `EngineState.Engine.ApplyConfig` | clash.go:53 | assumed applier behaviour: the tunnel mode and the log level become the configuration's; the application is recorded with its base flag |
| `Facade.Setup` | clash.go:44-63 | a parse failure returns an error and changes none of the modelled state; otherwise the config becomes the base, is applied as base (so the mode and level become its own), and the façade is initialized |
| `Facade.CloseAllConnections` | clash.go:118-123 | every connection of the snapshot is closed in snapshot order, and no connection is left open |
| `Facade.SetConfig` | clash.go:65-81 | before setup: no effect and no error; on a parse error: an error, no connection closed and nothing applied; otherwise all connections are closed, then the overridden profile is applied as non-base, so the mode and level become the base's |
| `Facade.PatchSelectGroup` | clash.go:83-108 | before setup or on a decode failure the registry is unchanged; otherwise it becomes `ApplyAll` of the patch, whatever the iteration order |
| `Facade.SetTunnelMode` | clash.go:110-116 | before setup: no effect; otherwise every snapshot connection is closed before the mode is set to the unvalidated mapping of the string |
| `Facade.SetLogLevel` | clash.go:142-147 | before setup the level is unchanged; otherwise it becomes the mapping of the name |
| `Facade.FetchLogs` | clash.go:153-166 | the events sent to the logger are exactly `Forwarded` of the received events |
| `ClientFacade.GetConfigGeneral` | clash/clash.go:43-49 | nothing before setup; otherwise the base configuration's general settings |
| `ClientFacade.PatchSelector` | clash/clash.go:51-80 | before setup or on a decode failure: false and no change; otherwise the first-success result for this order, and true iff some group is settable |
| `ClientFacade.PatchTunnelMode` | clash/clash.go:146-167 | before setup: false and no change; otherwise true iff the string parses, the mode changes only then, and connections are never closed |
| `ClientFacade.RelayNext` | clash/clash.go:87-101 | definition of one relay step: a publish is buffered when fewer than 1024 events are held and dropped otherwise; a receive moves the oldest buffered event, if any, to the received events |
| `ClientFacade.RelayNextKeeps` | clash/clash.go:87-101 | one step keeps the buffer within 1024 events and a FIFO of the accepted events not yet received, and counts a publish as either accepted or dropped |
| `ClientFacade.RelayRun` | clash/clash.go:83-101 | definition of a run: `RelayNext` applied to each step in order, from an empty buffer |
| `ClientFacade.RelayRunInvariant` | clash/clash.go:83-101 | the buffer never holds more than 1024 events; it holds the accepted events not yet received, in order; accepted events are published events in publication order; every published event is either accepted or dropped |
| `ClientFacade.RelayDropsOnlyWhenFull` | clash/clash.go:89-92 | a published event is dropped exactly when the buffer is full, and is accepted otherwise; a receive drops nothing |
| `ClientFacade.RelayDeliversInOrder` | clash/clash.go:83-101 | the events forwarded to the client are published events, in publication order |
| `ClientFacade.RelayStepOnce` | clash/clash.go:87-101 | one publish or receive leaves the buffer, the drop count and the forwarded events exactly as the relay's reference step `RelayNext` says |
| `ClientFacade.RelayLogs` | clash/clash.go:82-102 | the forwarded events are exactly the received events at or above the engine's level, in order, and the drop count is the reference run's; so the forwarded events are an in-order subsequence of the published ones, and forwarded plus dropped is at most the number published |
| `ClientFacade.AsInt16` | clash/clash.go:138 | the `int16` conversion of a `uint16` lies in the `int16` range and agrees with the input modulo 2^16 |
| `ClientFacade.GetProxyDelay` | clash/clash.go:114-144 | a name missing from the registry gives 0; a probe error or timeout gives 0; a measurement gives its `int16` conversion |

## Left out

- Packet plumbing is not modelled: `ReadPacket`, the LWIP stack, and the TCP/UDP handler and output-function registration in `Setup`. These are I/O through foreign libraries. Creating the stack is modelled only as the set-up flag becoming true.
- Concurrency is not modelled. Both relays run sequentially over a given run of events. The logger registration and the level stay fixed during a run. Calls that race with the relays, or with a drain, are not modelled.
- Both `fetchTraffic` loops are not modelled. They forward the counters once a second, with no decision logic.
- `GetProxyDelay` does not model the timing of its race or its context deadline. The race's winner is the `outcome` input. The URL and the timeout only feed the probe, so they are not parameters.
- Facade.Setup: the model does not capture that the log relay starts before the parse (clash.go:45). A failed `Setup` therefore leaves a relay running, with its own bus subscription. After a retry that succeeds, every event reaches the logger once per running relay. The home directory and the config path are also reset before the parse (clash.go:46-47). The model's `Setup` promises only that a failure changes none of the modelled state.
- The two façades' set-up flags are merged into one. `Engine.initialized` stands for both `stack != nil` (clash.go) and `base != nil` (clash/clash.go), which are globals of different packages. The `Setup` of clash.go never sets clash/clash.go's `base`. The model assumes a host uses one façade, so after `Facade.Setup` the client façade's guards also pass.
- ClientFacade.RelayLogs: assumes a client is registered, and forwards with the logger present. The `Setup` of clash/clash.go stores whatever client the host passes (clash/clash.go:30). With a nil client, the first event at or above the level panics at clash/clash.go:100, and `fetchTraffic` panics on its first tick at clash/clash.go:110. The nil-client panic is not modelled.
- The `Setup` of clash/clash.go is not modelled separately. On success it does what `Facade.Setup` does; on a parse error it panics, and a process abort has no contract.
- `SetTrafficReceiver` and `SetRealTimeLogger` are not modelled. They are plain assignments. The logger's presence is the `hasLogger` input of `Facade.FetchLogs`.
- `constant.SetHomeDir`, `constant.SetConfig` and the profile path built in `SetConfig` are not modelled. The parse of that file is the `profile` input.
- JSON encoding is not modelled: `GetConfigGeneral` returns the general settings rather than their JSON bytes.
- How `executor.ApplyConfig` rebuilds the proxy registry, rules, DNS and listeners is not modelled. `EngineState.Engine.ApplyConfig` leaves the registry unconstrained and sets only the mode and the level.
- The sink receives `(Type(), Payload)` for each event; the model passes on the event itself.
- Modes.Lower: inherits the gap of `Modes.LowerChar` below, so a string such as "Ä" stays "Ä" where `strings.ToLower` gives "ä".
- Modes.LowerChar: Go's `unicode.ToLower` is modelled exactly where the result is an ASCII letter: the 26 capitals, the dotted capital I (U+0130, to `i`) and the Kelvin sign (U+212A, to `k`). Other non-ASCII characters are kept as they are, while Go lowers some of them to other non-ASCII characters ('Ä' to 'ä', for example). The acceptance of a mode name does not depend on that difference, since no mode name contains a non-ASCII character.
- The two type assertions of the patch loops (`*adapter.Proxy`, then `*outboundgroup.Selector`) are one test, `Selector?`. Both skip rules lead to the same result: the group is left unchanged.
- `Config` keeps only the fields the façades touch, plus a few representative fields showing what else a profile carries.
- The type assertions on bus elements are not modelled. The tun2socks relay asserts `*L.Event` (clash.go:160) and the client relay asserts the value type `log.Event` (clash/clash.go:88). An element of another type panics the relay (for clash.go, only when a logger is registered, since clash.go:157-159 skip the event before the assertion otherwise), and since the two types differ, at most one of the assertions can hold against a given engine version. The model assumes every element has the type its relay asserts, so the panic path is absent.
