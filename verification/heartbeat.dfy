// When a connection is declared dead (gateway/gateway.go: isDead, SendHeartbeat, useLastSentBeat).

module Heartbeats {
  import opened Gateway
  import opened Optional
  import opened Wire

  /** What happens on one connection: a tick of the ticker, or an op that is read. */
  datatype Pulse = Tick(at: int) | Got(at: int, op: Op) {
    /** A beat is due: the ticker fires, or the server asks for one. */
    predicate Beats() {
      Tick? || op.Heartbeat?
    }

    /** The server acknowledges the last beat: a HEARTBEAT_ACK, READY or RESUMED. */
    predicate Acks() {
      Got? && (op.HeartbeatAck? || (op.Dispatch? && (op.payload.Ready? || op.payload.Resumed?)))
    }
  }

  /** The client, and when it declared the connection dead. */
  datatype Watch = Watch(client: Client, deadAt: Option<int>)

  function Observe(w: Watch, p: Pulse): Watch {
    if w.deadAt.Some? then w
    else
      var env := Env(p.at, true, true);
      var e := if p.Tick? then OnBeat(w.client, env) else Handled(w.client, p.op, env);
      Watch(e.client, if p.Beats() && e.reconnect then Some(p.at) else None)
  }

  function Watched(w: Watch, trace: seq<Pulse>): Watch
    decreases trace
  {
    if trace == [] then w else Watched(Observe(w, trace[0]), trace[1..])
  }

  function NextTick(p: Pulse, next: int, h: int): int {
    if p.Tick? then next + h else next
  }

  /** The pulses come in order of time from `now` on, and the ticker fires at `next`, `next + h`, ...
      without fail. A Hello would be another connection's. */
  predicate Timely(trace: seq<Pulse>, now: int, next: int, h: int) {
    trace == []
    || (&& now <= trace[0].at <= next
        && (trace[0].Tick? ==> trace[0].at == next)
        && !(trace[0].Got? && trace[0].op.Hello?)
        && Timely(trace[1..], trace[0].at, NextTick(trace[0], next, h), h))
  }

  /** When the ticker fires next after the trace. */
  function Upcoming(trace: seq<Pulse>, next: int, h: int): int {
    if trace == [] then next else Upcoming(trace[1..], NextTick(trace[0], next, h), h)
  }

  predicate NoAck(trace: seq<Pulse>) {
    trace == [] || (!trace[0].Acks() && NoAck(trace[1..]))
  }

  /** Between two ticks there is an acknowledgement; `acked` tells whether there was one since the
      latest tick. */
  predicate Responsive(trace: seq<Pulse>, acked: bool) {
    trace == []
    || (&& (trace[0].Tick? ==> acked)
        && Responsive(trace[1..], if trace[0].Tick? then false else acked || trace[0].Acks()))
  }

  /**
   Once acknowledged at time a, a connection that falls silent is declared dead more than 2h and
   at most 3h later: as long as it is not, the next tick is at most 3h after a.
   */
  lemma {:induction false} SilentDies(w: Watch, trace: seq<Pulse>, a: int, now: int, next: int, h: int)
    requires h > 0 && w.client.heartrate == h && w.client.echoBeat == Some(a) && w.deadAt.None?
    requires Timely(trace, now, next, h) && NoAck(trace) && now <= next <= a + 3 * h
    ensures var r := Watched(w, trace);
            match r.deadAt
            case Some(t) => a + 2 * h < t <= a + 3 * h
            case None => Upcoming(trace, next, h) <= a + 3 * h
    decreases trace
  {
    if trace != [] {
      var p := trace[0];
      var w' := Observe(w, p);
      if w'.deadAt.None? {
        SilentDies(w', trace[1..], a, p.at, NextTick(p, next, h), h);
      } else {
        DeadStays(w', trace[1..]);
      }
    }
  }

  lemma {:induction false} DeadStays(w: Watch, trace: seq<Pulse>)
    requires w.deadAt.Some?
    ensures Watched(w, trace) == w
    decreases trace
  {
    if trace != [] {
      DeadStays(w, trace[1..]);
    }
  }

  /** The same from the acknowledgement on: if a tick is due within h of it, a silent connection
      does not survive a tick later than 3h after it. */
  lemma SilentAfterAck(w: Watch, ack: Pulse, trace: seq<Pulse>, next: int, h: int)
    requires h > 0 && w.client.heartrate == h && w.deadAt.None? && ack.Acks()
    requires var a := ack.at; a <= next <= a + h && Timely(trace, a, next, h) && NoAck(trace)
    requires Upcoming(trace, next, h) > ack.at + 3 * h
    ensures var r := Watched(w, [ack] + trace);
            r.deadAt.Some? && ack.at + 2 * h < r.deadAt.value <= ack.at + 3 * h
  {
    assert ([ack] + trace)[1..] == trace;
    SilentDies(Observe(w, ack), trace, ack.at, ack.at, next, h);
  }

  /** A connection whose beats are each acknowledged before the next tick is never declared dead,
      whatever the server sends in between. */
  lemma {:induction false} ResponsiveLives(w: Watch, trace: seq<Pulse>, acked: bool, now: int, next: int, h: int)
    requires h > 0 && w.client.heartrate == h && w.deadAt.None?
    requires Timely(trace, now, next, h) && Responsive(trace, acked)
    requires next - h <= now <= next
    requires w.client.echoBeat.Some? ==> w.client.echoBeat.value >= if acked then next - h else next - 2 * h
    ensures Watched(w, trace).deadAt.None?
    decreases trace
  {
    if trace != [] {
      var p := trace[0];
      ResponsiveLives(Observe(w, p), trace[1..], if p.Tick? then false else acked || p.Acks(),
                      p.at, NextTick(p, next, h), h);
    }
  }

  /** From a Hello at t0 on; READY or RESUMED counts as the first acknowledgement. */
  lemma ResponsiveFromHello(c: Client, t0: int, h: int, trace: seq<Pulse>)
    requires h > 0 && Timely(trace, t0, t0 + h, h) && Responsive(trace, false)
    ensures Watched(Watch(Handled(c, Hello(h), Env(t0, true, true)).client, None), trace).deadAt.None?
  {
    ResponsiveLives(Watch(Handled(c, Hello(h), Env(t0, true, true)).client, None), trace, false, t0, t0 + h, h);
  }

  /** Without a first acknowledgement a silent connection is never declared dead, however long it
      stays silent: the bound above needs the acknowledgement it is counted from. */
  lemma {:induction false} NeverAcknowledged(w: Watch, trace: seq<Pulse>)
    requires w.client.echoBeat.None? && w.deadAt.None? && NoAck(trace)
    ensures Watched(w, trace).deadAt.None?
    decreases trace
  {
    if trace != [] {
      NeverAcknowledged(Observe(w, trace[0]), trace[1..]);
    }
  }
}
