/** The state of the proxy engine as the façades see it. */
module EngineState {
  import opened Common
  import opened Groups
  import opened Modes
  import opened Logging
  import opened Configs

  type ConnId = nat

  /** What the engine has been asked to do, in order. Recording these makes
      "every connection is closed before the mode changes" observable. */
  datatype Effect =
    | Closed(conn: ConnId)
    | ModeSet(mode: TunnelMode)
    | Applied(config: Config, isBase: bool)

  /** The close effects of walking a connection snapshot. */
  function ClosedAll(snapshot: seq<ConnId>): (r: seq<Effect>)
    ensures |r| == |snapshot|
    ensures forall i :: 0 <= i < |r| ==> r[i] == Closed(snapshot[i])
  {
    if snapshot == [] then []
    else ClosedAll(snapshot[..|snapshot| - 1]) + [Closed(snapshot[|snapshot| - 1])]
  }

  /** Outcome of the calls that return a Go `error`. */
  datatype Status = Ok | ConfigError

  class Engine {
    /** The façade has been set up (`stack != nil`, `base != nil`). */
    var initialized: bool
    /** The configuration stored by a successful setup. */
    var base: Option<Config>
    /** The proxy registry, `tunnel.Proxies()`. */
    var groups: map<string, Group>
    var mode: TunnelMode
    var connections: set<ConnId>
    /** The log bus's minimum level, `L.Level()`. */
    var level: LogLevel
    var history: seq<Effect>

    ghost predicate Valid()
      reads this
    {
      initialized <==> base.Some?
    }

    /** An engine before setup, with the engine's defaults: rule mode and
        info level. */
    constructor (registry: map<string, Group>, open: set<ConnId>)
      ensures Valid() && !initialized
      ensures groups == registry && connections == open
      ensures mode == Rule && level == Info && history == []
    {
      initialized := false;
      base := None;
      groups := registry;
      mode := Rule;
      connections := open;
      level := Info;
      history := [];
    }

    /** `Connection.Close()`. */
    method Close(c: ConnId)
      modifies this`connections, this`history
      ensures connections == old(connections) - {c}
      ensures history == old(history) + [Closed(c)]
    {
      connections := connections - {c};
      history := history + [Closed(c)];
    }

    /** `tunnel.SetMode`. */
    method SetMode(m: TunnelMode)
      modifies this`mode, this`history
      ensures mode == m
      ensures history == old(history) + [ModeSet(m)]
    {
      mode := m;
      history := history + [ModeSet(m)];
    }

    /** `executor.ApplyConfig`. Assumed behaviour: the configuration's general
        settings set the tunnel mode and the log level, and its proxies replace
        the registry in a way this model does not follow. */
    method ApplyConfig(cfg: Config, isBase: bool)
      modifies this`groups, this`mode, this`level, this`history
      ensures mode == cfg.general.mode && level == cfg.general.logLevel
      ensures history == old(history) + [Applied(cfg, isBase)]
    {
      mode := cfg.general.mode;
      level := cfg.general.logLevel;
      history := history + [Applied(cfg, isBase)];
    }
  }
}
