/** Log levels, the level filter of both log relays, and the bounded relay
    buffer of the client façade. */
module Logging {
  import opened Common

  datatype LogLevel = Debug | Info | Warning | Error | Silent

  /** The level's position in the engine's enumeration (Go `iota` order). */
  function Rank(l: LogLevel): nat
  {
    match l
    case Debug => 0
    case Info => 1
    case Warning => 2
    case Error => 3
    case Silent => 4
  }

  function LevelName(l: LogLevel): string
  {
    match l
    case Debug => "debug"
    case Info => "info"
    case Warning => "warning"
    case Error => "error"
    case Silent => "silent"
  }

  /** The lookup `L.LogLevelMapping[level]`: an exact match on the level
      names; a missing key yields Go's zero value, `Debug`. */
  function LevelMapping(s: string): (l: LogLevel)
    ensures s in {"debug", "info", "warning", "error", "silent"} ==> LevelName(l) == s
    ensures s !in {"debug", "info", "warning", "error", "silent"} ==> l == Debug
  {
    if s == "info" then Info
    else if s == "warning" then Warning
    else if s == "error" then Error
    else if s == "silent" then Silent
    else Debug
  }

  /** An event of the engine's log bus; the sink receives its level name
      (`Type()`) and its payload. */
  datatype LogEvent = LogEvent(level: LogLevel, payload: string)

  /** The relay's rule: forward iff a sink is registered and the event is at
      or above the current threshold. */
  predicate Passes(ev: LogEvent, hasSink: bool, threshold: LogLevel)
  {
    hasSink && Rank(ev.level) >= Rank(threshold)
  }

  /** The events a relay hands to its sink when `events` arrive in this order. */
  function Forwarded(events: seq<LogEvent>, hasSink: bool, threshold: LogLevel): (r: seq<LogEvent>)
    ensures |r| <= |events|
    ensures forall i :: 0 <= i < |r| ==> Passes(r[i], hasSink, threshold)
  {
    if events == [] then []
    else
      var last := events[|events| - 1];
      Forwarded(events[..|events| - 1], hasSink, threshold)
        + (if Passes(last, hasSink, threshold) then [last] else [])
  }

  /** An event reaches the sink iff it was produced and passes the filter. */
  lemma {:induction false} ForwardedExactly(events: seq<LogEvent>, hasSink: bool, threshold: LogLevel, ev: LogEvent)
    ensures ev in Forwarded(events, hasSink, threshold) <==> ev in events && Passes(ev, hasSink, threshold)
  {
    if events != [] {
      var init := events[..|events| - 1];
      ForwardedExactly(init, hasSink, threshold, ev);
      assert events == init + [events[|events| - 1]];
    }
  }

  /** Forwarded events keep the order in which they were produced. */
  lemma {:induction false} ForwardedInOrder(events: seq<LogEvent>, hasSink: bool, threshold: LogLevel)
    ensures IsSubsequence(Forwarded(events, hasSink, threshold), events)
  {
    if events == [] {
      assert Embeds([], Forwarded(events, hasSink, threshold), events);
    } else {
      var n := |events| - 1;
      var init := events[..n];
      ForwardedInOrder(init, hasSink, threshold);
      var idx :| Embeds(idx, Forwarded(init, hasSink, threshold), init);
      if Passes(events[n], hasSink, threshold) {
        assert Embeds(idx + [n], Forwarded(events, hasSink, threshold), events);
      } else {
        assert Embeds(idx, Forwarded(events, hasSink, threshold), events);
      }
    }
  }

  /** Capacity of the client façade's relay channel. */
  const BufferCapacity: nat := 1024

  /** The buffered channel between the log subscription and the delivery
      loop: a send that finds it full is dropped instead of blocking. */
  class LogBuffer {
    var items: seq<LogEvent>

    ghost predicate Valid()
      reads this
    {
      |items| <= BufferCapacity
    }

    constructor ()
      ensures Valid() && items == []
    {
      items := [];
    }

    /** `select { case ch <- l: default: }` */
    method Offer(ev: LogEvent) returns (accepted: bool)
      requires Valid()
      modifies this
      ensures Valid()
      ensures accepted <==> |old(items)| < BufferCapacity
      ensures items == if accepted then old(items) + [ev] else old(items)
    {
      accepted := |items| < BufferCapacity;
      if accepted {
        items := items + [ev];
      }
    }

    /** One receive from the channel; `None` when nothing is waiting. */
    method Take() returns (ev: Option<LogEvent>)
      requires Valid()
      modifies this
      ensures Valid()
      ensures old(items) == [] ==> ev == None && items == []
      ensures old(items) != [] ==> ev == Some(old(items)[0]) && items == old(items)[1..]
    {
      if items == [] {
        ev := None;
      } else {
        ev := Some(items[0]);
        items := items[1..];
      }
    }
  }
}
