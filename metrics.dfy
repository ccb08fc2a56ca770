// The metrics broadcast loop (sockets/metrics.py): every round it emits the sampled metrics
// to connected clients, decides whether to log the broadcast, and runs the memory alert with
// its cooldown and hysteresis. Sampling, the clock and the sockets are inputs: a round is
// given the number of connected clients, the sampled memory usage (absent when the metrics
// lack it) and the current time, or `None` when sampling raised.
module Metrics {
  import opened Wrappers

  const AlertThreshold: real := 90.0
  const AlertCooldown: real := 300.0
  const Hysteresis: real := 5.0
  const RecoveryWindow: real := 3600.0
  const LogEvery: nat := 30
  const AlertDuration: nat := 10000
  const RecoveryDuration: nat := 5000

  /** What one round observes. */
  datatype Sample = Sample(clients: nat, memoryUsage: Option<real>, now: real)

  /** What one round does, in order. */
  datatype Effect =
    | LogBroadcast(clients: nat)
    | EmitMetrics
    | MemoryAlert(usage: real, duration: nat)
    | MemoryRecovered(usage: real, duration: nat)

  /** The module globals and the function attribute `last_client_count`. */
  datatype MonitorState = MonitorState(alertActive: bool, lastAlertTime: real, counter: nat,
                                       lastClientCount: Option<nat>)

  const Initial := MonitorState(false, 0.0, 0, None)

  /** The broadcast part of a round: with clients connected the counter advances and the
      metrics are emitted, logged on the first round, every 30th, or when the client count
      has changed. */
  function Broadcast(s: MonitorState, clients: nat): (r: (MonitorState, seq<Effect>))
    ensures clients == 0 <==> r == (s, [])
    ensures clients > 0 ==> r.0 == s.(counter := s.counter + 1, lastClientCount := Some(clients))
    ensures clients > 0 ==> r.1 == (if (s.counter + 1) % LogEvery == 0 || s.counter + 1 == 1
                                        || (s.lastClientCount.Some? && s.lastClientCount.value != clients)
                                     then [LogBroadcast(clients), EmitMetrics] else [EmitMetrics])
  {
    if clients == 0 then (s, [])
    else
      var last := s.lastClientCount.GetOr(clients);
      var counter := s.counter + 1;
      var log := counter % LogEvery == 0 || counter == 1 || clients != last;
      (s.(counter := counter, lastClientCount := Some(clients)),
       (if log then [LogBroadcast(clients)] else []) + [EmitMetrics])
  }

  /** The memory part of a round. */
  function MemoryCheck(s: MonitorState, usage: real, now: real): (r: (MonitorState, seq<Effect>))
  {
    if usage >= AlertThreshold then
      if !s.alertActive && now - s.lastAlertTime > AlertCooldown then
        (s.(alertActive := true, lastAlertTime := now), [MemoryAlert(usage, AlertDuration)])
      else (s, [])
    else if s.alertActive && usage < AlertThreshold - Hysteresis then
      var s' := s.(alertActive := false);
      if now - s.lastAlertTime < RecoveryWindow then (s', [MemoryRecovered(usage, RecoveryDuration)])
      else (s', [])
    else (s, [])
  }

  /** One round of `broadcast_metrics`; a round whose sampling raised changes nothing. */
  function Step(s: MonitorState, x: Option<Sample>): (r: (MonitorState, seq<Effect>))
  {
    match x
    case None => (s, [])
    case Some(smp) =>
      var (s1, e1) := Broadcast(s, smp.clients);
      var (s2, e2) := MemoryCheck(s1, smp.memoryUsage.GetOr(0.0), smp.now);
      (s2, e1 + e2)
  }

  /** The alert fires exactly when usage is at least 90, no alert is active and the last
      one is more than 300 seconds old; firing marks the alert active at this time. */
  lemma AlertRule(s: MonitorState, usage: real, now: real)
    ensures var (s', e) := MemoryCheck(s, usage, now);
            && ((exists u, d :: MemoryAlert(u, d) in e)
                <==> usage >= AlertThreshold && !s.alertActive && now - s.lastAlertTime > AlertCooldown)
            && ((exists u, d :: MemoryAlert(u, d) in e)
                ==> (s'.alertActive && s'.lastAlertTime == now && e == [MemoryAlert(usage, AlertDuration)]))
            && s'.counter == s.counter && s'.lastClientCount == s.lastClientCount
  {
  }

  /** Hysteresis: the alert resets only below 85, so usage in [85, 90) changes nothing, and
      a recovery notice goes out only on a reset within an hour of the last alert. */
  lemma HysteresisRule(s: MonitorState, usage: real, now: real)
    ensures AlertThreshold - Hysteresis <= usage < AlertThreshold ==> MemoryCheck(s, usage, now) == (s, [])
    ensures var (s', e) := MemoryCheck(s, usage, now);
            (s.alertActive && !s'.alertActive <==> s.alertActive && usage < AlertThreshold - Hysteresis)
    ensures var (s', e) := MemoryCheck(s, usage, now);
            (exists u, d :: MemoryRecovered(u, d) in e)
            <==> s.alertActive && usage < AlertThreshold - Hysteresis && now - s.lastAlertTime < RecoveryWindow
  {
  }

  /** `broadcast_metrics` over a run of rounds. */
  function Run(s: MonitorState, xs: seq<Option<Sample>>): (r: (MonitorState, seq<Effect>))
  {
    if |xs| == 0 then (s, [])
    else
      var (s1, e1) := Run(s, xs[..|xs| - 1]);
      var (s2, e2) := Step(s1, xs[|xs| - 1]);
      (s2, e1 + e2)
  }

  /** The rounds with clients connected. */
  function Broadcasts(xs: seq<Option<Sample>>): nat
  {
    if |xs| == 0 then 0
    else Broadcasts(xs[..|xs| - 1]) + (if xs[|xs| - 1].Some? && xs[|xs| - 1].value.clients > 0 then 1 else 0)
  }

  /** The counter counts the rounds that broadcast. */
  lemma {:induction false} CounterCountsBroadcasts(s: MonitorState, xs: seq<Option<Sample>>)
    ensures Run(s, xs).0.counter == s.counter + Broadcasts(xs)
  {
    if |xs| > 0 {
      CounterCountsBroadcasts(s, xs[..|xs| - 1]);
    }
  }

  /** An active alert never fires again while usage stays at 85 or above: it stays active
      and no alert or recovery is sent. */
  lemma {:induction false} NoRepeatWhileHigh(s: MonitorState, xs: seq<Option<Sample>>)
    requires s.alertActive
    requires forall i :: 0 <= i < |xs| && xs[i].Some? ==> xs[i].value.memoryUsage.GetOr(0.0) >= AlertThreshold - Hysteresis
    ensures Run(s, xs).0.alertActive
    ensures forall e :: e in Run(s, xs).1 ==> e.LogBroadcast? || e.EmitMetrics?
  {
    if |xs| > 0 {
      var init := xs[..|xs| - 1];
      assert forall i :: 0 <= i < |init| ==> init[i] == xs[i];
      NoRepeatWhileHigh(s, init);
      var (s1, e1) := Run(s, init);
      var (s2, e2) := Step(s1, xs[|xs| - 1]);
      assert Run(s, xs) == (s2, e1 + e2);
    }
  }

  /** The broadcaster's globals. */
  class Broadcaster {
    var alertActive: bool
    var lastAlertTime: real
    var counter: nat
    var lastClientCount: Option<nat>

    constructor ()
      ensures State() == Initial
    {
      alertActive := false;
      lastAlertTime := 0.0;
      counter := 0;
      lastClientCount := None;
    }

    function State(): MonitorState
      reads this
    {
      MonitorState(alertActive, lastAlertTime, counter, lastClientCount)
    }

    /** One round of the loop body. */
    method Round(x: Option<Sample>) returns (effects: seq<Effect>)
      modifies this
      ensures (State(), effects) == Step(old(State()), x)
    {
      if x.None? {
        return [];
      }
      var smp := x.value;
      var e1 := BroadcastPart(smp.clients);
      var e2 := CheckMemory(smp.memoryUsage.GetOr(0.0), smp.now);
      effects := e1 + e2;
    }

    /** The counter and logging part of a round. */
    method BroadcastPart(clientCount: nat) returns (effects: seq<Effect>)
      modifies this
      ensures (State(), effects) == Broadcast(old(State()), clientCount)
    {
      effects := [];
      if clientCount > 0 {
        if lastClientCount.None? {
          lastClientCount := Some(clientCount);
        }
        counter := counter + 1;
        var log := counter % LogEvery == 0 || counter == 1 || clientCount != lastClientCount.value;
        lastClientCount := Some(clientCount);
        effects := (if log then [LogBroadcast(clientCount)] else []) + [EmitMetrics];
      }
    }

    /** The memory alert part of a round. */
    method CheckMemory(usage: real, now: real) returns (effects: seq<Effect>)
      modifies this
      ensures (State(), effects) == MemoryCheck(old(State()), usage, now)
    {
      effects := [];
      if usage >= AlertThreshold {
        if !alertActive && now - lastAlertTime > AlertCooldown {
          alertActive := true;
          lastAlertTime := now;
          effects := [MemoryAlert(usage, AlertDuration)];
        }
      } else {
        if alertActive && usage < AlertThreshold - Hysteresis {
          alertActive := false;
          if now - lastAlertTime < RecoveryWindow {
            effects := [MemoryRecovered(usage, RecoveryDuration)];
          }
        }
      }
    }

    /** `broadcast_metrics`: the loop over the rounds that happen while `should_run` holds. */
    method BroadcastMetrics(rounds: seq<Option<Sample>>) returns (effects: seq<Effect>)
      modifies this
      ensures (State(), effects) == Run(old(State()), rounds)
    {
      effects := [];
      var i := 0;
      while i < |rounds|
        invariant 0 <= i <= |rounds|
        invariant (State(), effects) == Run(old(State()), rounds[..i])
      {
        assert rounds[..i + 1][..i] == rounds[..i];
        var e := Round(rounds[i]);
        effects := effects + e;
        i := i + 1;
      }
      assert rounds[..i] == rounds;
    }
  }
}
