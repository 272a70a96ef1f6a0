/** The client façade (clash/clash.go): package functions over the engine. */
module ClientFacade {
  import opened Common
  import opened Groups
  import opened Modes
  import opened Logging
  import opened Configs
  import opened EngineState

  /** `GetConfigGeneral`: the base configuration's general settings, or
      nothing before setup (their JSON encoding is not modelled). */
  method GetConfigGeneral(e: Engine) returns (general: Option<General>)
    requires e.Valid()
    ensures general.None? <==> !e.initialized
    ensures e.initialized ==> general == Some(e.base.value.general)
  {
    if e.base.None? {
      return None;
    }
    general := Some(e.base.value.general);
  }

  /** `PatchSelector`: like `PatchSelectGroup`, but stops at the first group
      whose `Set` succeeds and reports whether there was one. */
  method PatchSelector(e: Engine, decoded: Option<map<string, string>>, order: seq<string>) returns (ok: bool)
    requires IsEnumeration(order, e.groups.Keys)
    modifies e`groups
    ensures !e.initialized || decoded.None? ==> !ok && e.groups == old(e.groups)
    ensures e.initialized && decoded.Some? ==>
      (ok, e.groups) == FirstSuccess(old(e.groups), decoded.value, order)
    ensures e.initialized && decoded.Some? ==>
      (ok <==> exists n :: Settable(old(e.groups), decoded.value, n))
  {
    if !e.initialized {
      return false;
    }
    if decoded.None? {
      return false;
    }
    var mapping := decoded.value;
    FirstSuccessOutcome(e.groups, mapping, order);
    var i := 0;
    while i < |order|
      invariant 0 <= i <= |order|
      invariant e.groups == old(e.groups)
      invariant FirstSuccess(e.groups, mapping, order) == FirstSuccess(e.groups, mapping, order[i..])
    {
      var name := order[i];
      assert order[i..][1..] == order[i + 1..];
      if name in mapping {
        var selected := mapping[name];
        var proxy := e.groups[name];
        if proxy.Selector? {
          var result := SelectorSet(proxy, selected);
          if result.Some? {
            e.groups := e.groups[name := result.value];
            return true;
          }
        }
      }
      i := i + 1;
    }
    ok := false;
  }

  /** `PatchTunnelMode`: parse the mode in any letter case and set it;
      connections are left open. */
  method PatchTunnelMode(e: Engine, modeStr: string) returns (ok: bool)
    modifies e`mode, e`history
    ensures !e.initialized ==> !ok && e.mode == old(e.mode) && e.history == old(e.history)
    ensures e.initialized ==> ok == ParseMode(modeStr).Some?
    ensures e.connections == old(e.connections)
    ensures e.initialized && ok ==>
      e.mode == ParseMode(modeStr).value && e.history == old(e.history) + [ModeSet(e.mode)]
    ensures e.initialized && !ok ==> e.mode == old(e.mode) && e.history == old(e.history)
  {
    if !e.initialized {
      return false;
    }
    var mode: TunnelMode;
    match ParseMode(modeStr) {
      case None =>
        return false;
      case Some(m) =>
        mode := m;
    }
    e.SetMode(mode);
    ok := true;
  }

  /** One event of a sequential run of the relay: the bus publishes an
      event, or the delivery loop receives once from the buffer. */
  datatype RelayStep = Publish(event: LogEvent) | Receive

  /** The events the bus publishes during a run. */
  function Published(steps: seq<RelayStep>): (r: seq<LogEvent>)
    ensures |r| <= |steps|
  {
    if steps == [] then []
    else
      var last := steps[|steps| - 1];
      Published(steps[..|steps| - 1]) + (if last.Publish? then [last.event] else [])
  }

  /** The relay after a run: the events the buffer accepted, the ones still
      buffered, the ones the relay has taken out, and how many it dropped. */
  datatype Relay = Relay(accepted: seq<LogEvent>, held: seq<LogEvent>,
                         received: seq<LogEvent>, dropped: nat)

  /** One step of the relay: a publish is buffered when the buffer has room
      and dropped otherwise; a receive takes the oldest buffered event, if any. */
  function RelayNext(r: Relay, step: RelayStep): Relay
  {
    match step
    case Publish(l) =>
      if |r.held| < BufferCapacity then r.(accepted := r.accepted + [l], held := r.held + [l])
      else r.(dropped := r.dropped + 1)
    case Receive =>
      if r.held == [] then r else r.(held := r.held[1..], received := r.received + [r.held[0]])
  }

  /** A step keeps the buffer bounded and a FIFO of the accepted events not
      yet received, and accounts for a publish as accepted or dropped. */
  lemma RelayNextKeeps(r: Relay, step: RelayStep)
    ensures var r' := RelayNext(r, step);
      |r'.accepted| + r'.dropped == |r.accepted| + r.dropped + (if step.Publish? then 1 else 0) &&
      (r.received + r.held == r.accepted ==> r'.received + r'.held == r'.accepted) &&
      (|r.held| <= BufferCapacity ==> |r'.held| <= BufferCapacity)
  {
    if step.Publish? && |r.held| < BufferCapacity {
      assert r.received + (r.held + [step.event]) == (r.received + r.held) + [step.event];
    } else if step.Receive? && r.held != [] {
      assert (r.received + [r.held[0]]) + r.held[1..] == r.received + r.held;
    }
  }

  /** The relay after the steps of a run, starting from an empty buffer. */
  function RelayRun(steps: seq<RelayStep>): Relay
  {
    if steps == [] then Relay([], [], [], 0)
    else RelayNext(RelayRun(steps[..|steps| - 1]), steps[|steps| - 1])
  }

  /** What every run keeps true: the buffer is bounded, its events are the
      accepted ones not yet received, in order; the accepted events are
      published events in publication order; and each published event was
      either accepted or dropped. */
  lemma {:induction false} RelayRunInvariant(steps: seq<RelayStep>)
    ensures RelayRun(steps).received + RelayRun(steps).held == RelayRun(steps).accepted
    ensures |RelayRun(steps).held| <= BufferCapacity
    ensures IsSubsequence(RelayRun(steps).accepted, Published(steps))
    ensures |RelayRun(steps).accepted| + RelayRun(steps).dropped == |Published(steps)|
  {
    if steps == [] {
      assert Embeds([], RelayRun(steps).accepted, Published(steps));
    } else {
      var init := steps[..|steps| - 1];
      RelayRunInvariant(init);
      var r := RelayRun(init);
      var idx :| Embeds(idx, r.accepted, Published(init));
      RelayNextKeeps(r, steps[|steps| - 1]);
      match steps[|steps| - 1] {
        case Publish(l) =>
          EmbedsExtend(idx, r.accepted, Published(init), l);
          if |r.held| < BufferCapacity {
            assert Embeds(idx + [|Published(init)|], RelayRun(steps).accepted, Published(steps));
          } else {
            assert Embeds(idx, RelayRun(steps).accepted, Published(steps));
          }
        case Receive =>
          assert Embeds(idx, RelayRun(steps).accepted, Published(steps));
      }
    }
  }

  /** A published event is dropped exactly when it finds the buffer full,
      and otherwise joins the accepted events; no other step drops anything. */
  lemma RelayDropsOnlyWhenFull(steps: seq<RelayStep>, i: nat)
    requires i < |steps|
    ensures var before, after := RelayRun(steps[..i]), RelayRun(steps[..i + 1]);
      after.dropped == before.dropped +
        (if steps[i].Publish? && |before.held| == BufferCapacity then 1 else 0) &&
      (steps[i].Publish? && |before.held| < BufferCapacity ==>
        after.accepted == before.accepted + [steps[i].event])
  {
    assert steps[..i + 1][..i] == steps[..i];
    RelayRunInvariant(steps[..i]);
  }

  /** The events a run forwards to the client are published events, in the
      order they were published. */
  lemma RelayDeliversInOrder(steps: seq<RelayStep>, threshold: LogLevel)
    ensures IsSubsequence(Forwarded(RelayRun(steps).received, true, threshold), Published(steps))
  {
    var r := RelayRun(steps);
    RelayRunInvariant(steps);
    PrefixSubsequence(r.received, r.accepted, Published(steps));
    ForwardedInOrder(r.received, true, threshold);
    SubsequenceTransitive(Forwarded(r.received, true, threshold), r.received, Published(steps));
  }

  /** One step of `fetchLogs`: a publish offers the event to the buffer, a
      receive forwards the oldest buffered event when it passes the filter. */
  method RelayStepOnce(ch: LogBuffer, step: RelayStep, threshold: LogLevel,
                       ghost r: Relay, delivered: seq<LogEvent>, dropped: nat)
    returns (delivered': seq<LogEvent>, dropped': nat)
    requires ch.Valid()
    requires ch.items == r.held && dropped == r.dropped
    requires delivered == Forwarded(r.received, true, threshold)
    modifies ch
    ensures ch.Valid()
    ensures ch.items == RelayNext(r, step).held && dropped' == RelayNext(r, step).dropped
    ensures delivered' == Forwarded(RelayNext(r, step).received, true, threshold)
  {
    delivered', dropped' := delivered, dropped;
    match step {
      case Publish(l) =>
        var accepted := ch.Offer(l);
        if !accepted {
          dropped' := dropped + 1;
        }
      case Receive =>
        var next := ch.Take();
        if next.Some? {
          var l := next.value;
          assert (r.received + [l])[..|r.received|] == r.received;
          if Rank(l.level) >= Rank(threshold) {
            delivered' := delivered + [l];
          }
        }
    }
  }

  /** `fetchLogs`, run sequentially over `steps`: each published event is
      offered to the bounded buffer (dropped when it is full), and each
      receive takes the oldest buffered event and forwards it to the client
      when it is at or above the engine's level. */
  method RelayLogs(e: Engine, steps: seq<RelayStep>) returns (delivered: seq<LogEvent>, dropped: nat)
    ensures delivered == Forwarded(RelayRun(steps).received, true, e.level)
    ensures dropped == RelayRun(steps).dropped
    ensures IsSubsequence(delivered, Published(steps))
    ensures forall i :: 0 <= i < |delivered| ==> Rank(delivered[i].level) >= Rank(e.level)
    ensures |delivered| + dropped <= |Published(steps)|
  {
    var ch := new LogBuffer();
    delivered, dropped := [], 0;
    var i := 0;
    while i < |steps|
      invariant 0 <= i <= |steps|
      invariant ch.Valid()
      invariant ch.items == RelayRun(steps[..i]).held && dropped == RelayRun(steps[..i]).dropped
      invariant delivered == Forwarded(RelayRun(steps[..i]).received, true, e.level)
    {
      assert steps[..i + 1][..i] == steps[..i];
      delivered, dropped := RelayStepOnce(ch, steps[i], e.level, RelayRun(steps[..i]), delivered, dropped);
      i := i + 1;
    }
    assert steps[..i] == steps;
    RelayRunInvariant(steps);
    RelayDeliversInOrder(steps, e.level);
  }

  /** Go's conversion `int16(delay)` of a `uint16`: two's-complement wrap. */
  function AsInt16(d: nat): (r: int)
    requires d < 0x1_0000
    ensures -0x8000 <= r < 0x8000
    ensures (d - r) % 0x1_0000 == 0
  {
    if d < 0x8000 then d else d - 0x1_0000
  }

  /** How the probe race ended: a measurement, the probe's own error, or the
      caller's timeout firing first. */
  datatype ProbeOutcome = Measured(delay: nat) | ProbeFailed | TimedOut

  /** `GetProxyDelay`: 0 for a name missing from the registry; otherwise the
      race's measurement as an `int16`, or 0 for an error or a timeout. */
  method GetProxyDelay(e: Engine, name: string, outcome: ProbeOutcome) returns (delay: int)
    requires outcome.Measured? ==> outcome.delay < 0x1_0000
    ensures name !in e.groups ==> delay == 0
    ensures name in e.groups && !outcome.Measured? ==> delay == 0
    ensures name in e.groups && outcome.Measured? ==> delay == AsInt16(outcome.delay)
    ensures -0x8000 <= delay < 0x8000
  {
    if name !in e.groups {
      return 0;
    }
    match outcome
    case Measured(d) =>
      delay := AsInt16(d);
    case ProbeFailed =>
      delay := 0;
    case TimedOut =>
      delay := 0;
  }
}
