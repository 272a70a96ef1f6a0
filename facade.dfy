/** The tun2socks façade (clash.go): package functions over the engine. */
module Facade {
  import opened Common
  import opened Groups
  import opened Modes
  import opened Logging
  import opened Configs
  import opened EngineState

  /** `Setup` without the packet stack: parse, store as base, apply as base. */
  method Setup(e: Engine, parsed: Option<Config>) returns (status: Status)
    requires e.Valid()
    modifies e`initialized, e`base, e`groups, e`mode, e`level, e`history
    ensures e.Valid()
    ensures parsed.None? ==>
      (status == ConfigError && e.initialized == old(e.initialized) &&
       e.base == old(e.base) && e.groups == old(e.groups) && e.mode == old(e.mode) &&
       e.level == old(e.level) && e.history == old(e.history))
    ensures parsed.Some? ==>
      (status == Ok && e.initialized && e.base == parsed &&
       e.mode == parsed.value.general.mode && e.level == parsed.value.general.logLevel &&
       e.history == old(e.history) + [Applied(parsed.value, true)])
  {
    if parsed.None? {
      return ConfigError;
    }
    e.base := parsed;
    e.ApplyConfig(parsed.value, true);
    e.initialized := true;
    status := Ok;
  }

  /** `CloseAllConnections`: close every connection of the snapshot, in the
      snapshot's order. */
  method CloseAllConnections(e: Engine, snapshot: seq<ConnId>)
    requires forall c :: c in e.connections ==> c in snapshot
    modifies e`connections, e`history
    ensures e.connections == {}
    ensures e.history == old(e.history) + ClosedAll(snapshot)
  {
    var i := 0;
    while i < |snapshot|
      invariant 0 <= i <= |snapshot|
      invariant e.connections <= old(e.connections)
      invariant forall j :: 0 <= j < i ==> snapshot[j] !in e.connections
      invariant e.history == old(e.history) + ClosedAll(snapshot[..i])
    {
      assert snapshot[..i + 1][..i] == snapshot[..i];
      e.Close(snapshot[i]);
      i := i + 1;
    }
  }

  /** `SetConfig(uuid)`: `profile` is the parse of the profile's file. */
  method SetConfig(e: Engine, profile: Option<Config>, snapshot: seq<ConnId>) returns (status: Status)
    requires e.Valid()
    requires forall c :: c in e.connections ==> c in snapshot
    modifies e`connections, e`groups, e`mode, e`level, e`history
    ensures !old(e.initialized) || profile.None? ==>
      (e.connections == old(e.connections) && e.groups == old(e.groups) &&
       e.mode == old(e.mode) && e.level == old(e.level) && e.history == old(e.history))
    ensures !old(e.initialized) ==> status == Ok
    ensures old(e.initialized) && profile.None? ==> status == ConfigError
    ensures old(e.initialized) && profile.Some? ==>
      (status == Ok && e.connections == {} &&
       e.mode == e.base.value.general.mode && e.level == e.base.value.general.logLevel &&
       e.history == old(e.history) + ClosedAll(snapshot) +
                    [Applied(ProfileOverride(profile.value, e.base.value), false)])
  {
    if !e.initialized {
      return Ok;
    }
    if profile.None? {
      return ConfigError;
    }
    CloseAllConnections(e, snapshot);
    var cfg := ProfileOverride(profile.value, e.base.value);
    e.ApplyConfig(cfg, false);
    status := Ok;
  }

  /** `PatchSelectGroup`: `decoded` is the JSON decode of the request and
      `order` the order in which the registry map is ranged over. */
  method PatchSelectGroup(e: Engine, decoded: Option<map<string, string>>, order: seq<string>)
    requires IsEnumeration(order, e.groups.Keys)
    modifies e`groups
    ensures !e.initialized || decoded.None? ==> e.groups == old(e.groups)
    ensures e.initialized && decoded.Some? ==> e.groups == ApplyAll(old(e.groups), decoded.value)
  {
    if !e.initialized {
      return;
    }
    if decoded.None? {
      return;
    }
    var mapping := decoded.value;
    ghost var proxies := e.groups;
    var i := 0;
    while i < |order|
      invariant 0 <= i <= |order|
      invariant e.groups.Keys == proxies.Keys
      invariant forall n :: n in proxies ==>
        e.groups[n] == if n in order[..i] then ApplyAll(proxies, mapping)[n] else proxies[n]
    {
      var name := order[i];
      assert name !in order[..i];
      if name in mapping {
        var selected := mapping[name];
        var proxy := e.groups[name];
        if proxy.Selector? {
          var result := SelectorSet(proxy, selected);
          if result.Some? {
            e.groups := e.groups[name := result.value];
          }
        }
      }
      assert order[..i + 1] == order[..i] + [name];
      i := i + 1;
    }
    assert order[..i] == order;
  }

  /** `SetTunnelMode`: drain every open connection, then set the mode the
      string maps to, without validating it. */
  method SetTunnelMode(e: Engine, name: string, snapshot: seq<ConnId>)
    requires forall c :: c in e.connections ==> c in snapshot
    modifies e`connections, e`history, e`mode
    ensures !e.initialized ==>
      e.connections == old(e.connections) && e.history == old(e.history) && e.mode == old(e.mode)
    ensures e.initialized ==>
      (e.connections == {} && e.mode == ModeMapping(name) &&
       e.history == old(e.history) + ClosedAll(snapshot) + [ModeSet(ModeMapping(name))])
  {
    if !e.initialized {
      return;
    }
    CloseAllConnections(e, snapshot);
    e.SetMode(ModeMapping(name));
  }

  /** `SetLogLevel`: guarded, unvalidated level lookup. */
  method SetLogLevel(e: Engine, name: string)
    modifies e`level
    ensures e.level == if e.initialized then LevelMapping(name) else old(e.level)
  {
    if !e.initialized {
      return;
    }
    e.level := LevelMapping(name);
  }

  /** `fetchLogs`: the receive loop over the subscription, run sequentially
      over the events `events` with a fixed logger registration and level. */
  method FetchLogs(e: Engine, events: seq<LogEvent>, hasLogger: bool) returns (sent: seq<LogEvent>)
    ensures sent == Forwarded(events, hasLogger, e.level)
  {
    sent := [];
    var i := 0;
    while i < |events|
      invariant 0 <= i <= |events|
      invariant sent == Forwarded(events[..i], hasLogger, e.level)
    {
      var log := events[i];
      assert events[..i + 1][..i] == events[..i];
      i := i + 1;
      if !hasLogger {
        continue;
      }
      if Rank(log.level) < Rank(e.level) {
        continue;
      }
      sent := sent + [log];
    }
    assert events[..i] == events;
  }
}
