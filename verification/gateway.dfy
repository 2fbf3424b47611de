// The gateway client: its session state (gateway/gateway.go) and its event loop
// (utils/ws/gateway.go).

/** What travels over a gateway connection. */
module Wire {
  import opened Optional

  /** The empty string means "no session". */
  type SessionID = string

  datatype Payload = Ready(session: SessionID) | Resumed | Event(tag: nat)

  /** A dispatch carries its number; `origin` names the session that numbered it and is not part of
      the message. BackgroundError and Close are made locally and have the op code -1. */
  datatype Op =
    | Dispatch(number: nat, origin: SessionID, payload: Payload)
    | Hello(interval: int)
    | InvalidSession(resumable: bool)
    | Reconnect
    | Heartbeat
    | HeartbeatAck
    | Close(code: int)
    | BackgroundError

  datatype Command = Identify | Resume(session: SessionID, sequence: nat) | Beat(sequence: nat)
}

module Gateway {
  import opened Optional
  import opened Wire

  const DEADBEAT: int := 15 * 60 * 1_000_000_000
  const INVALID_SEQUENCE: int := 4007
  const FATAL_CLOSE_CODES: seq<int> := [4004, 4010, 4011, 4012, 4013, 4014]

  /** The session state and beat times; a zero time is None. */
  datatype Client = Client(
    session: SessionID, sequence: nat, heartrate: int,
    lastSent: int, sentBeat: Option<int>, echoBeat: Option<int>)

  /** What handling one op meets outside: the time, whether sending works (including the wait
      for the identify limiter), and whether the wait after an invalid session ends normally. */
  datatype Env = Env(now: int, sendOk: bool, waitOk: bool)

  /** The new state, the command sent, whether a reconnect was queued, the errors reported, and the
      interval the heartbeat ticker is reset to. */
  datatype Effect = Effect(
    client: Client, sent: Option<Command>, reconnect: bool, errors: nat, reset: Option<int>)

  function Invalidated(c: Client): Client {
    c.(session := "", sequence := 0)
  }

  function Sending(c: Client, cmd: Command, env: Env): Effect {
    if env.sendOk then Effect(c, Some(cmd), false, 0, None) else Effect(c, None, true, 1, None)
  }

  function Acknowledged(c: Client, now: int): Client {
    c.(sentBeat := Some(c.lastSent), echoBeat := Some(now))
  }

  function IsDead(c: Client): bool {
    c.heartrate != 0 && c.echoBeat.Some? && c.lastSent - c.echoBeat.value > 2 * c.heartrate
  }

  function OnBeat(c: Client, env: Env): Effect {
    var c' := c.(lastSent := env.now);
    if IsDead(c') then Effect(c', None, true, 1, None) else Sending(c', Beat(c'.sequence), env)
  }

  /** The command that answers a Hello. */
  function Greeting(c: Client, now: int): Command {
    if (c.echoBeat.Some? && now - c.echoBeat.value >= DEADBEAT) || c.session == "" || c.sequence == 0
    then Identify else Resume(c.session, c.sequence)
  }

  /** gatewayImpl.OnOp */
  function Handled(c: Client, op: Op, env: Env): Effect {
    match op
    case Dispatch(n, _, Ready(s)) =>
      Effect(Acknowledged(c.(session := s, sequence := n), env.now), None, false, 0, None)
    case Dispatch(n, _, Resumed) => Effect(Acknowledged(c.(sequence := n), env.now), None, false, 0, None)
    case Dispatch(n, _, Event(_)) => Effect(c.(sequence := n), None, false, 0, None)
    case Close(code) => Effect(if code == INVALID_SEQUENCE then Invalidated(c) else c, None, true, 0, None)
    case Hello(interval) =>
      var c' := c.(heartrate := interval, echoBeat := None, sentBeat := None, lastSent := env.now);
      Sending(c', Greeting(c, env.now), env).(reset := Some(interval))
    case InvalidSession(resumable) =>
      if !resumable then Effect(Invalidated(c), None, true, 0, None)
      else if !env.waitOk then Effect(Invalidated(c), None, true, 1, None)
      else Sending(Invalidated(c), Identify, env)
    case Heartbeat => OnBeat(c, env)
    case HeartbeatAck => Effect(Acknowledged(c, env.now), None, false, 0, None)
    case Reconnect => Effect(c, None, true, 0, None)
    case BackgroundError => Effect(c, None, false, 0, None)
  }

  predicate IsFatal(op: Op) {
    op.Close? && op.code in FATAL_CLOSE_CODES
  }

  // When what happens.

  /**
   When a session is resumed: a Hello is answered with a Resume of the client's session and sequence if and only if
   it has both and its last acknowledgement, if there was one, is less than 15 minutes old; with an Identify
   otherwise.
   */
  lemma ResumesIff(c: Client, interval: int, env: Env)
    requires env.sendOk
    ensures Handled(c, Hello(interval), env).sent
            == if c.session != "" && c.sequence != 0
                  && (c.echoBeat.None? || env.now - c.echoBeat.value < 900_000_000_000)
               then Some(Resume(c.session, c.sequence)) else Some(Identify)
  {
  }

  /** The client has acknowledgements on this connection, and more than two beats passed since the last one. */
  predicate Overdue(c: Client, now: int) {
    c.heartrate != 0 && c.echoBeat.Some? && now - c.echoBeat.value > 2 * c.heartrate
  }

  /** A beat is due, and it carries the sequence; nothing else is ever sent. */
  lemma SendsIff(c: Client, op: Op, env: Env)
    ensures var sent := Handled(c, op, env).sent;
            && (sent.Some? <==>
                  env.sendOk && (op.Hello? || (op == InvalidSession(true) && env.waitOk)
                                 || (op.Heartbeat? && !Overdue(c, env.now))))
            && (op.Heartbeat? && sent.Some? ==> sent == Some(Beat(c.sequence)))
            && (op.InvalidSession? && sent.Some? ==> sent == Some(Identify))
    ensures OnBeat(c, env) == Handled(c, Heartbeat, env)
  {
  }

  /**
   A reconnect is queued exactly when the connection is closed, the server asks for one, the session is not
   resumable, the wait after an invalid session is given up, a command cannot be sent, or a beat is due on a
   connection that is dead. The last three are the errors that are reported.
   */
  lemma ReconnectsIff(c: Client, op: Op, env: Env)
    ensures var e := Handled(c, op, env);
            var failed := || (op.Hello? && !env.sendOk)
                          || (op == InvalidSession(true) && !(env.waitOk && env.sendOk))
                          || (op.Heartbeat? && (Overdue(c, env.now) || !env.sendOk));
            && (e.reconnect <==> op.Close? || op.Reconnect? || op == InvalidSession(false) || failed)
            && e.errors == if failed then 1 else 0
  {
  }

  /** The session is forgotten exactly when the server says it is invalid or closes with 4007, and a READY brings a
      new one; every dispatch brings its number. */
  lemma SessionIsKept(c: Client, op: Op, env: Env)
    ensures var c' := Handled(c, op, env).client;
            match op
            case InvalidSession(_) => c'.session == "" && c'.sequence == 0
            case Dispatch(n, _, Ready(s)) => c'.session == s && c'.sequence == n
            case Dispatch(n, _, _) => c'.session == c.session && c'.sequence == n
            case _ => if op == Close(4007) then c'.session == "" && c'.sequence == 0
                      else c'.session == c.session && c'.sequence == c.sequence
  {
  }

  /** READY, RESUMED and an acknowledgement all count as one of the last beat; a Hello starts the times anew and
      counts as a beat, and sets the pace. */
  lemma TimesAreKept(c: Client, op: Op, env: Env)
    ensures var e := Handled(c, op, env); var c' := e.client;
            && c'.heartrate == (if op.Hello? then op.interval else c.heartrate)
            && e.reset == (if op.Hello? then Some(op.interval) else None)
            && c'.lastSent == (if op.Hello? || op.Heartbeat? then env.now else c.lastSent)
            && (c'.sentBeat, c'.echoBeat)
               == if op.Hello? then (None, None)
                  else if op.HeartbeatAck? || (op.Dispatch? && !op.payload.Event?)
                  then (Some(c.lastSent), Some(env.now))
                  else (c.sentBeat, c.echoBeat)
  {
  }

  /** The close codes after which there is no reconnect. */
  lemma FatalIff(op: Op)
    ensures IsFatal(op) <==>
              op in [Close(4004), Close(4010), Close(4011), Close(4012), Close(4013), Close(4014)]
  {
    assert IsFatal(op) ==> op == Close(op.code);
  }

  function Errors(n: nat): seq<Op> {
    seq(n, _ => BackgroundError)
  }

  /** One attempt to dial: it works, it fails and the delay passes, or the context expires. */
  datatype Dial = Connected | Failed | ExpiredDialing | ExpiredWaiting

  /** How many dials precede the one that decides, at most `bound` of them. */
  function Attempts(script: seq<Dial>, bound: nat): (r: nat)
    ensures r <= |script| && r <= bound
  {
    if bound == 0 || script == [] || !script[0].Failed? then 0 else 1 + Attempts(script[1..], bound - 1)
  }

  lemma {:induction false} AttemptsMean(script: seq<Dial>, bound: nat, k: nat)
    ensures Attempts(script, bound) == k <==>
              && k <= bound && k <= |script| && (forall j :: 0 <= j < k ==> script[j].Failed?)
              && (k == bound || k == |script| || !script[k].Failed?)
  {
    if bound > 0 && script != [] && script[0].Failed? {
      if k > 0 {
        AttemptsMean(script[1..], bound - 1, k - 1);
        assert forall j :: 1 <= j < |script| ==> script[j] == script[1..][j - 1];
      }
    } else if k > 0 && k <= |script| {
      assert script[0] in script[..k];
    }
  }

  /** What reading a connection once yields: an op, or an error, with a code if the peer closed. */
  datatype Incoming = Decoded(op: Op) | Broken(code: Option<int>)

  /**
   readLoop (utils/ws/conn.go), on a connection that yields `incoming` and then breaks: everything
   read goes into the channel in order, and its last op before it is closed is a CloseEvent.
   */
  method ReadLoop(incoming: seq<Incoming>) returns (ops: seq<Op>)
    ensures ops != [] && |ops| - 1 <= |incoming|
    ensures forall i :: 0 <= i < |ops| - 1 ==> incoming[i] == Decoded(ops[i])
    ensures |ops| - 1 < |incoming| ==> incoming[|ops| - 1].Broken?
    ensures ops[|ops| - 1] == if |ops| - 1 < |incoming| && incoming[|ops| - 1].Broken?
                              then match incoming[|ops| - 1].code
                                   case Some(code) => Close(code)
                                   case None => Close(-1)
                              else Close(-1)
  {
    ops := [];
    while |ops| < |incoming|
      invariant |ops| <= |incoming|
      invariant forall i :: 0 <= i < |ops| ==> incoming[i] == Decoded(ops[i])
      decreases |incoming| - |ops|
    {
      match incoming[|ops|] {
        case Decoded(op) => ops := ops + [op];
        case Broken(code) =>
          var closeCode := -1;
          if code.Some? {
            closeCode := code.value;
          }
          return ops + [Close(closeCode)];
      }
    }
    return ops + [Close(-1)];
  }

  lemma OneMoreError(n: nat)
    ensures Errors(0) == [] && Errors(n + 1) == Errors(n) + [BackgroundError]
  {
  }

  lemma OneMoreAttempt(script: seq<Dial>, try: nat, bound: nat)
    requires try < |script| && try < bound
    ensures Attempts(script[try..], bound - try)
            == if script[try].Failed? then 1 + Attempts(script[try + 1..], bound - try - 1) else 0
    ensures Attempts(script, bound) == Attempts(script[0..], bound)
  {
    assert script[0..] == script;
    assert script[try..][1..] == script[try + 1..];
  }

  lemma NoMoreAttempts(script: seq<Dial>, bound: nat)
    ensures bound == 0 || script == [] ==> Attempts(script, bound) == 0
    ensures script[0..] == script
  {
  }

  /** The ws.Gateway of one run: the reconnect channel (capacity 1), the heartbeat ticker (None: it is
      stopped), the connection it reads from, what it has put on the event channel, and the error it
      would return. */
  class Loop {
    var tokens: nat
    var heart: Option<int>
    var connected: bool
    var out: seq<Op>
    var lastError: Option<Op>
    const reconnectAttempt: nat

    /** The start of spin: one token is queued. */
    constructor (reconnectAttempt: nat)
      ensures tokens == 1 && !connected && out == [] && heart == None && lastError == None
      ensures this.reconnectAttempt == reconnectAttempt
    {
      tokens, heart, connected, out, lastError := 1, None, false, [], None;
      this.reconnectAttempt := reconnectAttempt;
    }

    method QueueReconnect()
      modifies this
      ensures tokens == if old(tokens) < 1 then 1 else old(tokens)
      ensures heart == None && out == old(out) && connected == old(connected) && lastError == old(lastError)
    {
      if tokens < 1 {
        tokens := tokens + 1;
      }
      heart := None;
    }

    method ResetHeartbeat(d: int)
      modifies this
      ensures heart == Some(d)
      ensures tokens == old(tokens) && out == old(out) && connected == old(connected) && lastError == old(lastError)
    {
      heart := Some(d);
    }

    method SendError()
      modifies this
      ensures out == old(out) + [BackgroundError] && lastError == Some(BackgroundError)
      ensures tokens == old(tokens) && heart == old(heart) && connected == old(connected)
    {
      out := out + [BackgroundError];
      lastError := Some(BackgroundError);
    }

    /**
     The reconnect branch of spin. `closeOk` says that closing the previous connection works or that it
     is closed already; `script` lists how the dials turn out, and when it ends the context has expired.
     The loop goes on exactly when a dial within the allowed attempts succeeds before the context
     expires; a failed close and every failed dial are reported, and so is giving up.
     */
    method Reconnect(closeOk: bool, script: seq<Dial>) returns (ok: bool)
      requires tokens > 0
      modifies this
      ensures tokens == old(tokens) - 1 && heart == old(heart) && connected == ok
      ensures var bound := if reconnectAttempt == 0 then |script| else reconnectAttempt;
              var k := Attempts(script, bound);
              && (ok <==> k < bound && k < |script| && script[k].Connected?)
              && var errors := (if closeOk then 0 else 1)
                               + (if ok then k
                                  else if k < bound && k < |script| && script[k].ExpiredWaiting? then k + 2
                                  else k + 1);
              && out == old(out) + Errors(errors)
              && lastError == if errors > 0 then Some(BackgroundError) else old(lastError)
    {
      hide Errors, Attempts;
      OneMoreError(0);
      NoMoreAttempts(script, 0);
      tokens := tokens - 1;
      ghost var closing := if closeOk then 0 else 1;
      OneMoreError(1);
      if !closeOk {
        SendError();
      }
      connected := false;
      var try := 0;
      ghost var bound := if reconnectAttempt == 0 then |script| else reconnectAttempt;
      ghost var k := Attempts(script, bound);
      while (reconnectAttempt == 0 || try < reconnectAttempt) && try < |script|
        decreases |script| - try
        invariant try <= k && try <= |script| && (try < bound ==> k == try + Attempts(script[try..], bound - try))
        invariant try >= bound ==> k == try == bound
        invariant !connected && tokens == old(tokens) - 1 && heart == old(heart)
        invariant out == old(out) + Errors(closing + try)
        invariant lastError == if closing + try > 0 then Some(BackgroundError) else old(lastError)
      {
        OneMoreAttempt(script, try, bound);
        OneMoreError(closing + try);
        OneMoreError(closing + try + 1);
        match script[try] {
          case Connected =>
            connected := true;
            return true;
          case ExpiredDialing =>
            break;
          case Failed =>
            SendError();
          case ExpiredWaiting =>
            SendError();
            SendError();
            return false;
        }
        try := try + 1;
      }
      NoMoreAttempts(script[try..], bound - try);
      OneMoreError(closing + try);
      SendError();
      return false;
    }
  }

  /** gatewayImpl: the handler the loop calls. */
  class Session {
    var sessionID: SessionID
    var sequence: nat
    var heartrate: int
    var lastSentBeat: int
    var sentBeat: Option<int>
    var echoBeat: Option<int>
    var sent: seq<Command>
    const loop: Loop

    constructor (loop: Loop)
      ensures this.loop == loop && sent == []
      ensures View() == Client("", 0, 0, 0, None, None)
    {
      this.loop := loop;
      sessionID, sequence, heartrate, lastSentBeat := "", 0, 0, 0;
      sentBeat, echoBeat, sent := None, None, [];
    }

    function View(): Client
      reads this
    {
      Client(sessionID, sequence, heartrate, lastSentBeat, sentBeat, echoBeat)
    }

    /** The state, the commands and the loop are as an effect says. */
    twostate predicate Shows(e: Effect)
      reads this, loop
    {
      && View() == e.client
      && sent == old(sent) + (if e.sent.Some? then [e.sent.value] else [])
      && loop.out == old(loop.out) + Errors(e.errors)
      && loop.lastError == (if e.errors > 0 then Some(BackgroundError) else old(loop.lastError))
      && loop.connected == old(loop.connected)
      && loop.heart == (if e.reconnect then None else if e.reset.Some? then e.reset else old(loop.heart))
      && loop.tokens == if e.reconnect && old(loop.tokens) < 1 then 1 else old(loop.tokens)
    }

    method Invalidate()
      modifies this
      ensures View() == Invalidated(old(View())) && sent == old(sent)
    {
      sessionID := "";
      sequence := 0;
    }

    method UseLastSentBeat(now: int)
      modifies this
      ensures View() == Acknowledged(old(View()), now) && sent == old(sent)
    {
      sentBeat := Some(lastSentBeat);
      echoBeat := Some(now);
    }

    /** Sending one command; a failure is reported and queues a reconnect. */
    method Send(cmd: Command, sendOk: bool)
      modifies this, loop
      ensures Shows(Sending(old(View()), cmd, Env(0, sendOk, true)))
    {
      if sendOk {
        sent := sent + [cmd];
      } else {
        loop.SendError();
        loop.QueueReconnect();
      }
    }

    method SendHeartbeat(env: Env)
      modifies this, loop
      ensures Shows(OnBeat(old(View()), env))
    {
      lastSentBeat := env.now;
      if IsDead(View()) {
        loop.SendError();
        loop.QueueReconnect();
        return;
      }
      Send(Beat(sequence), env.sendOk);
    }

    /** The HelloEvent case of OnOp. */
    method OnHello(interval: int, env: Env)
      modifies this, loop
      ensures Shows(Handled(old(View()), Hello(interval), env))
    {
      heartrate := interval;
      loop.ResetHeartbeat(heartrate);
      var resumable := echoBeat.None? || env.now - echoBeat.value < DEADBEAT;
      echoBeat, sentBeat := None, None;
      lastSentBeat := env.now;
      if !resumable || sessionID == "" || sequence == 0 {
        Send(Identify, env.sendOk);
      } else {
        Send(Resume(sessionID, sequence), env.sendOk);
      }
    }

    /** The InvalidSessionEvent case of OnOp. */
    method OnInvalidSession(again: bool, env: Env)
      modifies this, loop
      ensures Shows(Handled(old(View()), InvalidSession(again), env))
    {
      Invalidate();
      if !again {
        loop.QueueReconnect();
      } else if !env.waitOk {
        loop.SendError();
        loop.QueueReconnect();
      } else {
        Send(Identify, env.sendOk);
      }
    }

    method OnOp(op: Op, env: Env)
      modifies this, loop
      ensures Shows(Handled(old(View()), op, env))
    {
      if op.Dispatch? {
        sequence := op.number;
      }
      match op
      case Close(code) =>
        if code == INVALID_SEQUENCE {
          Invalidate();
        }
        loop.QueueReconnect();
      case Hello(interval) =>
        OnHello(interval, env);
      case InvalidSession(again) =>
        OnInvalidSession(again, env);
      case Heartbeat =>
        SendHeartbeat(env);
      case HeartbeatAck =>
        UseLastSentBeat(env.now);
      case Reconnect =>
        loop.QueueReconnect();
      case Dispatch(_, _, Ready(s)) =>
        sessionID := s;
        UseLastSentBeat(env.now);
      case Dispatch(_, _, Resumed) =>
        UseLastSentBeat(env.now);
      case Dispatch(_, _, Event(_)) =>
      case BackgroundError =>
    }

    /** The op branch of spin: a fatal close ends the loop and is its last error, everything is forwarded,
        and handling an op clears the last error. */
    method HandleOp(op: Op, env: Env) returns (ok: bool)
      modifies this, loop
      ensures ok <==> !IsFatal(op)
      ensures ok ==>
        var e := Handled(old(View()), op, env);
        && View() == e.client
        && sent == old(sent) + (if e.sent.Some? then [e.sent.value] else [])
        && loop.out == old(loop.out) + Errors(e.errors) + [op] && loop.lastError == None
        && loop.heart == (if e.reconnect then None else if e.reset.Some? then e.reset else old(loop.heart))
        && loop.tokens == if e.reconnect && old(loop.tokens) < 1 then 1 else old(loop.tokens)
      ensures !ok ==>
        && View() == old(View()) && sent == old(sent)
        && loop.out == old(loop.out) + [op] && loop.lastError == Some(op)
        && loop.tokens == old(loop.tokens) && loop.heart == old(loop.heart)
    {
      if IsFatal(op) {
        loop.out := loop.out + [op];
        loop.lastError := Some(op);
        return false;
      }
      OnOp(op, env);
      loop.out := loop.out + [op];
      loop.lastError := None;
      return true;
    }
  }
}
