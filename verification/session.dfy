// The gateway protocol end to end: the client of gateway.dfy, a server that numbers and
// replays dispatches, and a connection that may be lost at any time.

module SessionProtocol {
  import opened Gateway
  import opened Optional
  import opened Wire

  /** An op together with the number of the connection it travelled on. */
  datatype Packet = Packet(conn: nat, op: Op)

  /** The server sends the dispatches of `session` from index `next` of its log. */
  datatype Attachment = Attachment(session: SessionID, next: nat)

  /**
   The whole system. `wire` holds the unread packets of the connection the loop reads from
   (network, read loop and channel alike), ending in a CloseEvent once it is lost; `up` the commands
   the server has not read; `logs` every dispatch of every session; `out` everything put on the
   event channel. `since` is the length of `out` when the client last closed.
   */
  datatype System = System(
    client: Client, running: bool, tokens: nat,
    conn: nat, dialed: bool, open: bool, wire: seq<Packet>,
    up: seq<Command>, attached: Option<Attachment>, logs: map<SessionID, seq<Payload>>,
    out: seq<Packet>, since: nat)

  datatype Verdict = Accept(chosen: SessionID) | Reject(resumable: bool)

  datatype Step =
    | Read(env: Env)                                  // spin takes an op from the connection
    | Tick(env: Env)                                  // spin takes a heartbeat tick
    | Redial(ok: bool, errors: nat, interval: int)    // spin takes the reconnect token
    | Stop(keep: nat)                                 // the context is cancelled
    | Start                                           // Connect is called again
    | Emit                                            // the server sends the next dispatch
    | Append(session: SessionID, tag: nat)            // something happens in a session
    | Serve(verdict: Verdict)                         // the server reads a command
    | Control(op: Op)                                 // the server, or the codec, adds another op
    | Expel(resumable: bool)                          // the server invalidates the session
    | Drop(keep: nat, code: int)                      // the connection is lost, with what is unread after `keep`

  function Init(): System {
    System(Client("", 0, 0, 0, None, None), true, 1, 0, false, false, [], [], None, map[], [], 0)
  }

  function ErrorPackets(conn: nat, n: nat): seq<Packet> {
    seq(n, _ => Packet(conn, BackgroundError))
  }

  predicate IsControl(op: Op) {
    op.Reconnect? || op.Heartbeat? || op.HeartbeatAck? || op.BackgroundError?
  }

  /** What an effect of the handler changes: state, token, reported errors and the command sent,
      which is lost when the connection is. */
  function Forward(s: System, e: Effect): System {
    s.(client := e.client,
       tokens := if e.reconnect && s.tokens < 1 then 1 else s.tokens,
       out := s.out + ErrorPackets(s.conn, e.errors),
       up := if s.open && e.sent.Some? then s.up + [e.sent.value] else s.up)
  }

  /** The connection is gone; what was unread after `keep` packets is lost. */
  function Dropped(s: System, keep: nat, code: int): System {
    s.(open := false, up := [], attached := None,
       wire := s.wire[..if keep < |s.wire| then keep else |s.wire|] + [Packet(s.conn, Close(code))])
  }

  /** finalize: the connection is closed and the handler invalidates the session. */
  function Stopped(s: System, keep: nat): System {
    var s' := if s.open then Dropped(s, keep, -1) else s;
    s'.(running := false, client := Invalidated(s.client), since := |s.out|)
  }

  /** Connect makes a new handler, which has not seen a Hello nor sent a beat. */
  function Restarted(c: Client): Client {
    c.(heartrate := 0, lastSent := 0)
  }

  function Sent(s: System, op: Op): System {
    s.(wire := s.wire + [Packet(s.conn, op)])
  }

  function ReadStep(s: System, env: Env): System
    requires s.wire != []
  {
    var p := s.wire[0];
    if IsFatal(p.op) then Stopped(s.(out := s.out + [p], wire := s.wire[1..]), 0)
    else
      var s' := Forward(s, Handled(s.client, p.op, env));
      s'.(out := s'.out + [p], wire := s.wire[1..])
  }

  function RedialStep(s: System, ok: bool, errors: nat, interval: int): System
    requires s.tokens > 0
  {
    var s' := s.(tokens := s.tokens - 1, open := false, dialed := false, wire := [], up := [], attached := None,
                 out := s.out + ErrorPackets(s.conn, errors));
    if ok then Sent(s'.(conn := s.conn + 1, open := true, dialed := true), Hello(interval))
    else Stopped(s', 0)
  }

  function ServeStep(s: System, verdict: Verdict): System
    requires s.up != []
  {
    var s' := s.(up := s.up[1..]);
    match s.up[0]
    case Beat(_) => Sent(s', HeartbeatAck)
    case Identify =>
      if verdict.Accept? && verdict.chosen != "" && verdict.chosen !in s.logs then
        s'.(logs := s.logs[verdict.chosen := [Ready(verdict.chosen)]],
            attached := Some(Attachment(verdict.chosen, 0)))
      else Sent(s', InvalidSession(verdict.Reject? && verdict.resumable))
    case Resume(session, n) =>
      if verdict.Accept? && session in s.logs && n <= |s.logs[session]| then
        s'.(logs := s.logs[session := s.logs[session] + [Resumed]],
            attached := Some(Attachment(session, n)))
      else Sent(s', InvalidSession(verdict.Reject? && verdict.resumable))
  }

  function EmitStep(s: System, a: Attachment): System
    requires a.session in s.logs && a.next < |s.logs[a.session]|
  {
    Sent(s, Dispatch(a.next + 1, a.session, s.logs[a.session][a.next]))
      .(attached := Some(a.(next := a.next + 1)))
  }

  /** One step; a step that is not possible changes nothing. */
  function Apply(s: System, step: Step): System {
    match step
    case Read(env) => if s.running && s.wire != [] then ReadStep(s, env) else s
    case Tick(env) => if s.running then Forward(s, OnBeat(s.client, env)) else s
    case Redial(ok, errors, interval) =>
      if s.running && s.tokens > 0 then RedialStep(s, ok, errors, interval) else s
    case Stop(keep) => if s.running then Stopped(s, keep) else s
    case Start => if s.running then s else s.(running := true, tokens := 1, client := Restarted(s.client))
    case Emit =>
      if s.attached.Some? && s.attached.value.session in s.logs
         && s.attached.value.next < |s.logs[s.attached.value.session]|
      then EmitStep(s, s.attached.value) else s
    case Append(session, tag) =>
      if session in s.logs then s.(logs := s.logs[session := s.logs[session] + [Event(tag)]]) else s
    case Serve(verdict) => if s.open && s.up != [] then ServeStep(s, verdict) else s
    case Control(op) => if s.open && IsControl(op) then Sent(s, op) else s
    case Expel(resumable) =>
      if s.open && s.attached.Some? then Sent(s.(attached := None), InvalidSession(resumable)) else s
    case Drop(keep, code) => if s.open then Dropped(s, keep, code) else s
  }

  function Run(steps: seq<Step>): System {
    if steps == [] then Init() else Apply(Run(steps[..|steps| - 1]), steps[|steps| - 1])
  }

  // What the proofs speak about.

  /** The dispatches of one session among the packets, in order. */
  function Carried(ps: seq<Packet>, session: SessionID): seq<Op> {
    if ps == [] then [] else
    var op := ps[|ps| - 1].op;
    Carried(ps[..|ps| - 1], session) + (if op.Dispatch? && op.origin == session then [op] else [])
  }

  function Log(logs: map<SessionID, seq<Payload>>, session: SessionID): seq<Payload> {
    if session in logs then logs[session] else []
  }

  /** The first k dispatches of a session as the server numbers them. */
  function Numbered(log: seq<Payload>, session: SessionID, k: nat): seq<Op>
    requires k <= |log|
  {
    seq(k, i requires 0 <= i < k => Dispatch(i + 1, session, log[i]))
  }

  /** The dispatches are a gap-free, duplicate-free, ordered prefix of the session. */
  ghost predicate IsPrefix(ops: seq<Op>, logs: map<SessionID, seq<Payload>>, session: SessionID) {
    && |ops| <= |Log(logs, session)|
    && ops == Numbered(Log(logs, session), session, |ops|)
  }

  /** The session and sequence of the client. */
  datatype Mark = Mark(session: SessionID, sequence: nat)

  function MarkOf(c: Client): Mark {
    Mark(c.session, c.sequence)
  }

  function Marked(m: Mark, op: Op): Mark {
    match op
    case Dispatch(n, _, Ready(s)) => Mark(s, n)
    case Dispatch(n, _, _) => Mark(m.session, n)
    case InvalidSession(_) => Mark("", 0)
    case Close(code) => if code == 4007 then Mark("", 0) else m
    case _ => m
  }

  /** The session of the latest READY since the last invalidation and the number of the latest
      dispatch since, over a stretch of packets. */
  function Latest(m: Mark, ps: seq<Packet>): Mark {
    if ps == [] then m else Marked(Latest(m, ps[..|ps| - 1]), ps[|ps| - 1].op)
  }

  lemma {:induction false} CarriedConcat(a: seq<Packet>, b: seq<Packet>, session: SessionID)
    ensures Carried(a + b, session) == Carried(a, session) + Carried(b, session)
  {
    if b == [] {
      assert a + b == a;
    } else {
      CarriedConcat(a, b[..|b| - 1], session);
      assert (a + b)[..|a + b| - 1] == a + b[..|b| - 1];
    }
  }

  lemma {:induction false} LatestConcat(m: Mark, a: seq<Packet>, b: seq<Packet>)
    ensures Latest(m, a + b) == Latest(Latest(m, a), b)
  {
    if b == [] {
      assert a + b == a;
    } else {
      LatestConcat(m, a, b[..|b| - 1]);
      assert (a + b)[..|a + b| - 1] == a + b[..|b| - 1];
    }
  }

  /** Local error reports carry nothing and change nothing. */
  lemma {:induction false} ErrorsAreNeutral(conn: nat, n: nat, session: SessionID, m: Mark)
    ensures Carried(ErrorPackets(conn, n), session) == []
    ensures Latest(m, ErrorPackets(conn, n)) == m
  {
    if n > 0 {
      ErrorsAreNeutral(conn, n - 1, session, m);
      assert ErrorPackets(conn, n)[..n - 1] == ErrorPackets(conn, n - 1);
    }
  }

  lemma OneCarried(p: Packet, session: SessionID)
    ensures Carried([p], session) == if p.op.Dispatch? && p.op.origin == session then [p.op] else []
    ensures forall m :: Latest(m, [p]) == Marked(m, p.op)
  {
    assert [p][..0] == [];
  }

  /** Reading moves one packet and inserts error reports: what is carried overall stays. */
  lemma ReadKeepsCarried(out: seq<Packet>, errs: nat, conn: nat, wire: seq<Packet>, session: SessionID)
    requires wire != []
    ensures Carried(out + ErrorPackets(conn, errs) + [wire[0]] + wire[1..], session) == Carried(out + wire, session)
    ensures Carried(out + ErrorPackets(conn, errs) + [wire[0]], session)
            == Carried(out, session) + Carried([wire[0]], session)
  {
    hide Carried, Latest;
    var e := ErrorPackets(conn, errs);
    ErrorsAreNeutral(conn, errs, session, Mark("", 0));
    CarriedConcat(out, e, session);
    CarriedConcat(out + e, [wire[0]], session);
    CarriedConcat(out + e + [wire[0]], wire[1..], session);
    CarriedConcat(out, wire, session);
    CarriedConcat([wire[0]], wire[1..], session);
    assert [wire[0]] + wire[1..] == wire;
  }

  lemma HandledMark(c: Client, op: Op, env: Env)
    ensures MarkOf(Handled(c, op, env).client) == Marked(MarkOf(c), op)
  {
  }

  // The invariants.

  predicate IsPrompt(op: Op) {
    op.Hello? || op.InvalidSession?
  }

  predicate IsTalk(op: Op) {
    op.Dispatch? || IsPrompt(op)
  }

  ghost predicate NoPrompt(ps: seq<Packet>) {
    forall i :: 0 <= i < |ps| ==> !IsPrompt(ps[i].op)
  }

  ghost predicate Silent(ps: seq<Packet>) {
    forall i :: 0 <= i < |ps| ==> !IsTalk(ps[i].op)
  }

  /** After the server has prompted the client it waits. */
  ghost predicate Quiet(ps: seq<Packet>) {
    forall i, j :: 0 <= i < j < |ps| && IsPrompt(ps[i].op) ==> !IsTalk(ps[j].op)
  }

  ghost predicate OnlyBeats(up: seq<Command>) {
    forall i :: 0 <= i < |up| ==> up[i].Beat?
  }

  ghost predicate OneRequest(up: seq<Command>) {
    forall i, j :: 0 <= i < j < |up| ==> up[i].Beat? || up[j].Beat?
  }

  /** A dispatch other than READY belongs to the client's session, if it has one. */
  predicate Belongs(m: Mark, op: Op) {
    op.Dispatch? && !op.payload.Ready? ==> m.session == "" || m.session == op.origin
  }

  predicate Fits(m: Mark, ps: seq<Packet>) {
    ps == [] || (Fits(m, ps[..|ps| - 1]) && Belongs(Latest(m, ps[..|ps| - 1]), ps[|ps| - 1].op))
  }

  ghost predicate GoodLogs(logs: map<SessionID, seq<Payload>>) {
    forall id <- logs :: id != "" && |logs[id]| > 0 && logs[id][0] == Ready(id)
                         && forall i :: 0 < i < |logs[id]| ==> !logs[id][i].Ready?
  }

  ghost predicate Delivered(out: seq<Packet>, wire: seq<Packet>, logs: map<SessionID, seq<Payload>>) {
    forall id: SessionID :: IsPrefix(Carried(out + wire, id), logs, id)
  }

  /** The client's sequence counts what was forwarded of its session. */
  ghost predicate ClientInStep(m: Mark, out: seq<Packet>) {
    m.session != "" ==> 0 < m.sequence == |Carried(out, m.session)|
  }

  /** A pending Resume asks for what comes after everything forwarded. */
  ghost predicate RequestsInStep(m: Mark, up: seq<Command>, out: seq<Packet>) {
    forall i :: 0 <= i < |up| && up[i].Resume? ==>
      && 0 < up[i].sequence == |Carried(out, up[i].session)|
      && m.session in {"", up[i].session}
  }

  /** Server and client take turns: at most one of a prompt, a request and an attachment. */
  ghost predicate TakesTurns(s: System) {
    && (s.open ==> Quiet(s.wire) && OneRequest(s.up) && (OnlyBeats(s.up) || Silent(s.wire)))
    && (!s.open ==> s.attached.None? && s.up == [])
    && (s.attached.Some? ==> NoPrompt(s.wire) && OnlyBeats(s.up))
  }

  /** The server continues exactly after everything sent on this connection. */
  ghost predicate AttachedInStep(s: System) {
    s.attached.Some? ==>
      var a := s.attached.value;
      && a.session in s.logs
      && a.next == |Carried(s.out + s.wire, a.session)|
      && (a.next == 0 || Latest(MarkOf(s.client), s.wire).session in {"", a.session})
  }

  ghost predicate Core(s: System) {
    && GoodLogs(s.logs)
    && Delivered(s.out, s.wire, s.logs)
    && Fits(MarkOf(s.client), s.wire)
    && ClientInStep(MarkOf(s.client), s.out)
    && RequestsInStep(MarkOf(s.client), s.up, s.out)
    && TakesTurns(s)
    && AttachedInStep(s)
  }

  // Lemmas about the pieces.

  lemma {:induction false} FitsTail(m: Mark, p: Packet, rest: seq<Packet>)
    requires Fits(m, [p] + rest)
    ensures Belongs(m, p.op) && Fits(Marked(m, p.op), rest)
    ensures Latest(Marked(m, p.op), rest) == Latest(m, [p] + rest)
  {
    OneCarried(p, "");
    LatestConcat(m, [p], rest);
    if rest == [] {
      assert [p] + rest == [p] && [p][..0] == [];
    } else {
      var init := rest[..|rest| - 1];
      assert ([p] + rest)[..|rest|] == [p] + init;
      FitsTail(m, p, init);
    }
  }

  lemma FitsPush(m: Mark, ps: seq<Packet>, p: Packet)
    ensures Fits(m, ps + [p]) <==> Fits(m, ps) && Belongs(Latest(m, ps), p.op)
    ensures Latest(m, ps + [p]) == Marked(Latest(m, ps), p.op)
  {
    assert (ps + [p])[..|ps|] == ps;
  }

  lemma {:induction false} FitsTake(m: Mark, ps: seq<Packet>, k: nat)
    requires Fits(m, ps) && k <= |ps|
    ensures Fits(m, ps[..k])
  {
    if k < |ps| {
      FitsTake(m, ps[..|ps| - 1], k);
      assert ps[..|ps| - 1][..k] == ps[..k];
    } else {
      assert ps[..k] == ps;
    }
  }

  /** Forgetting the session never makes an op foreign. */
  lemma {:induction false} FitsForget(m: Mark, ps: seq<Packet>)
    requires Fits(m, ps)
    ensures Fits(Mark("", 0), ps)
    ensures Latest(Mark("", 0), ps).session in {"", Latest(m, ps).session}
  {
    if ps != [] {
      FitsForget(m, ps[..|ps| - 1]);
    }
  }

  lemma {:induction false} SilentIsNeutral(m: Mark, ps: seq<Packet>, session: SessionID)
    requires Silent(ps)
    ensures Carried(ps, session) == [] && Latest(m, ps).session in {"", m.session}
  {
    if ps != [] {
      assert Silent(ps[..|ps| - 1]);
      SilentIsNeutral(m, ps[..|ps| - 1], session);
      assert !IsTalk(ps[|ps| - 1].op);
    }
  }

  /** A prefix stays one when the session's log grows or fewer dispatches are looked at. */
  lemma PrefixMonotone(ops: seq<Op>, k: nat, logs: map<SessionID, seq<Payload>>,
                       grown: map<SessionID, seq<Payload>>, session: SessionID)
    requires IsPrefix(ops, logs, session) && k <= |ops|
    requires Log(logs, session) <= Log(grown, session)
    ensures IsPrefix(ops[..k], grown, session)
  {
    forall i | 0 <= i < k ensures ops[..k][i] == Numbered(Log(grown, session), session, k)[i] {
      assert ops[i] == Numbered(Log(logs, session), session, |ops|)[i];
    }
  }

  /** What is carried by a part of the packets is a prefix of what all of them carry. */
  lemma DeliveredPart(part: seq<Packet>, rest: seq<Packet>, logs: map<SessionID, seq<Payload>>, session: SessionID)
    requires IsPrefix(Carried(part + rest, session), logs, session)
    ensures IsPrefix(Carried(part, session), logs, session)
  {
    CarriedConcat(part, rest, session);
    var all, k := Carried(part + rest, session), |Carried(part, session)|;
    assert all[..k] == Carried(part, session);
    PrefixMonotone(all, k, logs, logs, session);
  }

  /** The next dispatch to be read is the one after everything forwarded of its session. */
  lemma NextDispatch(out: seq<Packet>, wire: seq<Packet>, logs: map<SessionID, seq<Payload>>)
    requires wire != [] && wire[0].op.Dispatch? && Delivered(out, wire, logs)
    ensures var op := wire[0].op; var k := |Carried(out, op.origin)|;
            k < |Log(logs, op.origin)| && op == Dispatch(k + 1, op.origin, Log(logs, op.origin)[k])
  {
    hide Carried;
    var op := wire[0].op;
    var k := |Carried(out, op.origin)|;
    assert IsPrefix(Carried(out + wire, op.origin), logs, op.origin);
    CarriedConcat(out, wire, op.origin);
    CarriedConcat([wire[0]], wire[1..], op.origin);
    OneCarried(wire[0], op.origin);
    assert [wire[0]] + wire[1..] == wire;
    assert Carried(out + wire, op.origin)[k] == op;
  }

  // Every step keeps the invariants: reading an op.

  lemma ReadDelivered(out: seq<Packet>, errs: nat, conn: nat, wire: seq<Packet>, logs: map<SessionID, seq<Payload>>)
    requires wire != [] && Delivered(out, wire, logs)
    ensures Delivered(out + ErrorPackets(conn, errs) + [wire[0]], wire[1..], logs)
  {
    hide Carried, IsPrefix;
    forall id: SessionID
      ensures IsPrefix(Carried(out + ErrorPackets(conn, errs) + [wire[0]] + wire[1..], id), logs, id)
    {
      ReadKeepsCarried(out, errs, conn, wire, id);
      assert IsPrefix(Carried(out + wire, id), logs, id);
    }
  }

  lemma ReadClientInStep(m: Mark, out: seq<Packet>, errs: nat, conn: nat, wire: seq<Packet>,
                         logs: map<SessionID, seq<Payload>>)
    requires wire != [] && GoodLogs(logs) && Delivered(out, wire, logs)
    requires ClientInStep(m, out) && Belongs(m, wire[0].op)
    ensures ClientInStep(Marked(m, wire[0].op), out + ErrorPackets(conn, errs) + [wire[0]])
  {
    hide Carried, Delivered;
    var m' := Marked(m, wire[0].op);
    ReadKeepsCarried(out, errs, conn, wire, m'.session);
    OneCarried(wire[0], m'.session);
    if wire[0].op.Dispatch? {
      NextDispatch(out, wire, logs);
    }
  }

  lemma ReadRequestsInStep(m: Mark, up: seq<Command>, out: seq<Packet>, errs: nat, conn: nat, wire: seq<Packet>)
    requires wire != [] && RequestsInStep(m, up, out) && (OnlyBeats(up) || Silent(wire))
    ensures RequestsInStep(Marked(m, wire[0].op), up, out + ErrorPackets(conn, errs) + [wire[0]])
  {
    forall i | 0 <= i < |up| && up[i].Resume?
      ensures 0 < up[i].sequence == |Carried(out + ErrorPackets(conn, errs) + [wire[0]], up[i].session)|
      ensures Marked(m, wire[0].op).session in {"", up[i].session}
    {
      assert !IsTalk(wire[0].op);
      ReadKeepsCarried(out, errs, conn, wire, up[i].session);
      OneCarried(wire[0], up[i].session);
    }
  }

  /** The only requests the handler sends answer a prompt, and a Resume names the client's state. */
  lemma HandledRequest(c: Client, op: Op, env: Env)
    ensures var cmd := Handled(c, op, env).sent;
            && (cmd.Some? && !cmd.value.Beat? ==> IsPrompt(op))
            && (cmd.Some? && cmd.value.Resume? ==>
                  op.Hello? && cmd.value == Resume(c.session, c.sequence) && c.session != "" && c.sequence != 0)
  {
  }

  /** Sending a command keeps the requests in step. */
  lemma PushRequest(m: Mark, up: seq<Command>, out: seq<Packet>, cmd: Command)
    requires RequestsInStep(m, up, out)
    requires cmd.Resume? ==> 0 < cmd.sequence == |Carried(out, cmd.session)| && m.session in {"", cmd.session}
    ensures RequestsInStep(m, up + [cmd], out)
  {
  }

  lemma ReadTurns(s: System, env: Env)
    requires s.wire != [] && TakesTurns(s) && !IsFatal(s.wire[0].op)
    ensures TakesTurns(ReadStep(s, env))
  {
    HandledRequest(s.client, s.wire[0].op, env);
    hide Handled;
    var cmd := Handled(s.client, s.wire[0].op, env).sent;
    var rest := s.wire[1..];
    assert forall i :: 0 <= i < |rest| ==> rest[i] == s.wire[i + 1];
    if s.open && cmd.Some? && !cmd.value.Beat? {
      assert Silent(rest);
      assert OnlyBeats(s.up);
    }
  }

  lemma ReadKeepsCore(s: System, env: Env)
    requires s.wire != [] && Core(s) && !IsFatal(s.wire[0].op)
    ensures Core(ReadStep(s, env))
  {
    hide GoodLogs, Delivered, Fits, ClientInStep, RequestsInStep, TakesTurns, Carried, Latest, Belongs, Handled, Marked;
    var m, op, e := MarkOf(s.client), s.wire[0].op, Handled(s.client, s.wire[0].op, env);
    var out' := s.out + ErrorPackets(s.conn, e.errors) + [s.wire[0]];
    HandledMark(s.client, op, env);
    assert [s.wire[0]] + s.wire[1..] == s.wire;
    FitsTail(m, s.wire[0], s.wire[1..]);
    ReadDelivered(s.out, e.errors, s.conn, s.wire, s.logs);
    ReadClientInStep(m, s.out, e.errors, s.conn, s.wire, s.logs);
    ReadTurns(s, env);
    assert s.open ==> OnlyBeats(s.up) || Silent(s.wire) by { TurnsSplit(s); }
    assert !s.open ==> s.up == [] by { TurnsSplit(s); }
    ReadRequestsInStep(m, s.up, s.out, e.errors, s.conn, s.wire);
    if s.open && e.sent.Some? {
      ReadPushes(s, env);
    }
    if s.attached.Some? {
      ReadKeepsCarried(s.out, e.errors, s.conn, s.wire, s.attached.value.session);
    }
  }

  lemma TurnsSplit(s: System)
    requires TakesTurns(s)
    ensures s.open ==> OnlyBeats(s.up) || Silent(s.wire)
    ensures !s.open ==> s.up == [] && s.attached.None?
  {
  }

  lemma ReadPushes(s: System, env: Env)
    requires s.wire != [] && Core(s)
    requires Handled(s.client, s.wire[0].op, env).sent.Some?
    requires var e := Handled(s.client, s.wire[0].op, env);
             RequestsInStep(MarkOf(e.client), s.up, s.out + ErrorPackets(s.conn, e.errors) + [s.wire[0]])
    ensures var e := Handled(s.client, s.wire[0].op, env);
            RequestsInStep(MarkOf(e.client), s.up + [e.sent.value],
                           s.out + ErrorPackets(s.conn, e.errors) + [s.wire[0]])
  {
    var e := Handled(s.client, s.wire[0].op, env);
    HandledRequest(s.client, s.wire[0].op, env);
    HandledMark(s.client, s.wire[0].op, env);
    hide Handled, Fits, Carried, TakesTurns, Delivered;
    if e.sent.value.Resume? {
      ReadKeepsCarried(s.out, e.errors, s.conn, s.wire, s.client.session);
      OneCarried(s.wire[0], s.client.session);
    }
    PushRequest(MarkOf(e.client), s.up, s.out + ErrorPackets(s.conn, e.errors) + [s.wire[0]], e.sent.value);
  }

  // Every step keeps the invariants: losing and closing the connection.

  /** Cutting the unread packets and adding one that carries nothing. */
  lemma CutDelivered(out: seq<Packet>, wire: seq<Packet>, k: nat, p: Packet, logs: map<SessionID, seq<Payload>>)
    requires Delivered(out, wire, logs) && k <= |wire| && !p.op.Dispatch?
    ensures Delivered(out, wire[..k] + [p], logs)
  {
    hide Carried, IsPrefix;
    forall id: SessionID ensures IsPrefix(Carried(out + (wire[..k] + [p]), id), logs, id) {
      assert IsPrefix(Carried(out + wire, id), logs, id);
      assert out + wire == (out + wire[..k]) + wire[k..];
      DeliveredPart(out + wire[..k], wire[k..], logs, id);
      CarriedConcat(out + wire[..k], [p], id);
      OneCarried(p, id);
      assert out + (wire[..k] + [p]) == (out + wire[..k]) + [p];
      assert Carried(out + wire[..k], id) + [] == Carried(out + wire[..k], id);
    }
  }

  /** Error reports join what was forwarded. */
  lemma ReportDelivered(out: seq<Packet>, conn: nat, errs: nat, wire: seq<Packet>, logs: map<SessionID, seq<Payload>>)
    requires Delivered(out, wire, logs)
    ensures Delivered(out + ErrorPackets(conn, errs), wire, logs)
  {
    hide Carried, IsPrefix;
    forall id: SessionID ensures IsPrefix(Carried(out + ErrorPackets(conn, errs) + wire, id), logs, id) {
      assert IsPrefix(Carried(out + wire, id), logs, id);
      ReportCarried(out, conn, errs, wire, id);
    }
  }

  lemma ReportCarried(out: seq<Packet>, conn: nat, errs: nat, wire: seq<Packet>, id: SessionID)
    ensures Carried(out + ErrorPackets(conn, errs), id) == Carried(out, id)
    ensures Carried(out + ErrorPackets(conn, errs) + wire, id) == Carried(out + wire, id)
  {
    hide Carried;
    ErrorsAreNeutral(conn, errs, id, Mark("", 0));
    CarriedConcat(out, ErrorPackets(conn, errs), id);
    CarriedConcat(out + ErrorPackets(conn, errs), wire, id);
    CarriedConcat(out, wire, id);
  }

  lemma DropKeepsCore(s: System, keep: nat, code: int)
    requires Core(s) && s.open
    ensures Core(Dropped(s, keep, code))
  {
    hide GoodLogs, Delivered, Fits, ClientInStep, Carried, Latest;
    var k, p := if keep < |s.wire| then keep else |s.wire|, Packet(s.conn, Close(code));
    CutDelivered(s.out, s.wire, k, p, s.logs);
    FitsTake(MarkOf(s.client), s.wire, k);
    FitsPush(MarkOf(s.client), s.wire[..k], p);
  }

  /** Closing needs no more of the state than what was delivered. */
  lemma StopKeepsCore(s: System, keep: nat, m: Mark)
    requires GoodLogs(s.logs) && Delivered(s.out, s.wire, s.logs) && Fits(m, s.wire)
    requires !s.open ==> s.attached.None? && s.up == []
    ensures Core(Stopped(s, keep))
  {
    hide GoodLogs, Delivered, Fits, Carried, Latest;
    FitsForget(m, s.wire);
    if s.open {
      var k, p := if keep < |s.wire| then keep else |s.wire|, Packet(s.conn, Close(-1));
      CutDelivered(s.out, s.wire, k, p, s.logs);
      FitsTake(Mark("", 0), s.wire, k);
      FitsPush(Mark("", 0), s.wire[..k], p);
    }
  }

  lemma FatalKeepsCore(s: System, env: Env)
    requires s.wire != [] && Core(s) && IsFatal(s.wire[0].op)
    ensures Core(ReadStep(s, env))
  {
    hide GoodLogs, Delivered, Fits, Carried, Latest, ClientInStep, RequestsInStep, AttachedInStep;
    assert [s.wire[0]] + s.wire[1..] == s.wire;
    FitsTail(MarkOf(s.client), s.wire[0], s.wire[1..]);
    ReadDelivered(s.out, 0, s.conn, s.wire, s.logs);
    assert s.out + ErrorPackets(s.conn, 0) == s.out;
    StopKeepsCore(s.(out := s.out + [s.wire[0]], wire := s.wire[1..]), 0, Marked(MarkOf(s.client), s.wire[0].op));
  }

  lemma TickKeepsCore(s: System, env: Env)
    requires Core(s)
    ensures Core(Forward(s, OnBeat(s.client, env)))
  {
    hide GoodLogs, Delivered, Fits, Carried, Latest;
    var e := OnBeat(s.client, env);
    assert MarkOf(e.client) == MarkOf(s.client);
    ReportDelivered(s.out, s.conn, e.errors, s.wire, s.logs);
    ReportCarried(s.out, s.conn, e.errors, s.wire, s.client.session);
    if s.attached.Some? {
      ReportCarried(s.out, s.conn, e.errors, s.wire, s.attached.value.session);
    }
    forall i | 0 <= i < |s.up| && s.up[i].Resume?
      ensures Carried(s.out + ErrorPackets(s.conn, e.errors), s.up[i].session) == Carried(s.out, s.up[i].session)
    {
      ReportCarried(s.out, s.conn, e.errors, s.wire, s.up[i].session);
    }
  }

  lemma RedialKeepsCore(s: System, ok: bool, errors: nat, interval: int)
    requires Core(s) && s.tokens > 0
    ensures Core(RedialStep(s, ok, errors, interval))
  {
    hide GoodLogs, Delivered, Fits, Carried, Latest;
    var out' := s.out + ErrorPackets(s.conn, errors);
    ReportDelivered(s.out, s.conn, errors, s.wire, s.logs);
    ReportCarried(s.out, s.conn, errors, s.wire, s.client.session);
    var hello := Packet(s.conn + 1, Hello(interval));
    CutDelivered(out', s.wire, 0, hello, s.logs);
    assert s.wire[..0] + [hello] == [] + [hello] == [hello];
    FitsPush(MarkOf(s.client), [], hello);
    FitsEmpty(MarkOf(s.client));
    if !ok {
      EmptyDelivered(out', s.wire, s.logs);
      StopKeepsCore(s.(tokens := s.tokens - 1, open := false, dialed := false, wire := [], up := [], attached := None,
                       out := out'), 0, MarkOf(s.client));
    }
  }

  lemma FitsEmpty(m: Mark)
    ensures Fits(m, [])
  {
  }

  lemma EmptyDelivered(out: seq<Packet>, wire: seq<Packet>, logs: map<SessionID, seq<Payload>>)
    requires Delivered(out, wire, logs)
    ensures Delivered(out, [], logs)
  {
    hide Carried, IsPrefix;
    forall id: SessionID ensures IsPrefix(Carried(out + [], id), logs, id) {
      assert IsPrefix(Carried(out + wire, id), logs, id);
      assert out + [] == out;
      DeliveredPart(out, wire, logs, id);
    }
  }

  // Every step keeps the invariants: the server.

  /** The server adds an op that is not a dispatch. */
  lemma SendKeepsDelivered(s: System, op: Op)
    requires Delivered(s.out, s.wire, s.logs) && !op.Dispatch?
    ensures Delivered(s.out, Sent(s, op).wire, s.logs)
    ensures forall id :: Carried(s.out + Sent(s, op).wire, id) == Carried(s.out + s.wire, id)
  {
    CutDelivered(s.out, s.wire, |s.wire|, Packet(s.conn, op), s.logs);
    assert s.wire[..|s.wire|] == s.wire;
    forall id ensures Carried(s.out + Sent(s, op).wire, id) == Carried(s.out + s.wire, id) {
      assert s.out + Sent(s, op).wire == (s.out + s.wire) + [Packet(s.conn, op)];
      CarriedConcat(s.out + s.wire, [Packet(s.conn, op)], id);
      OneCarried(Packet(s.conn, op), id);
    }
  }

  lemma ControlKeepsCore(s: System, op: Op)
    requires Core(s) && s.open && IsControl(op)
    ensures Core(Sent(s, op))
  {
    hide GoodLogs, Delivered, Fits, Carried, Latest;
    SendKeepsDelivered(s, op);
    FitsPush(MarkOf(s.client), s.wire, Packet(s.conn, op));
  }

  /** The server prompts the client while nothing else is under way. */
  lemma PromptKeepsCore(s: System, resumable: bool)
    requires Core(s) && s.open && s.attached.None? && OnlyBeats(s.up) && NoPrompt(s.wire)
    ensures Core(Sent(s, InvalidSession(resumable)))
  {
    hide GoodLogs, Delivered, Fits, Carried, Latest;
    SendKeepsDelivered(s, InvalidSession(resumable));
    FitsPush(MarkOf(s.client), s.wire, Packet(s.conn, InvalidSession(resumable)));
  }

  lemma ExpelKeepsCore(s: System, resumable: bool)
    requires Core(s) && s.open && s.attached.Some?
    ensures Core(Sent(s.(attached := None), InvalidSession(resumable)))
  {
    hide GoodLogs, Delivered, Fits, Carried, Latest, ClientInStep, RequestsInStep;
    PromptKeepsCore(s.(attached := None), resumable);
  }

  lemma GrowDelivered(out: seq<Packet>, wire: seq<Packet>, logs: map<SessionID, seq<Payload>>,
                      grown: map<SessionID, seq<Payload>>)
    requires Delivered(out, wire, logs)
    requires forall id :: Log(logs, id) <= Log(grown, id)
    ensures Delivered(out, wire, grown)
  {
    hide Carried;
    forall id: SessionID ensures IsPrefix(Carried(out + wire, id), grown, id) {
      var ops := Carried(out + wire, id);
      assert IsPrefix(ops, logs, id);
      PrefixMonotone(ops, |ops|, logs, grown, id);
      assert ops[..|ops|] == ops;
    }
  }

  lemma AppendKeepsCore(s: System, session: SessionID, e: Payload)
    requires Core(s) && session in s.logs && !e.Ready?
    ensures Core(s.(logs := s.logs[session := s.logs[session] + [e]]))
  {
    hide Delivered, Fits, Carried, Latest;
    var grown := s.logs[session := s.logs[session] + [e]];
    GrowDelivered(s.out, s.wire, s.logs, grown);
  }

  lemma EmitAttached(s: System, a: Attachment, p: Packet)
    requires AttachedInStep(s) && s.attached == Some(a) && GoodLogs(s.logs)
    requires a.session in s.logs && a.next < |s.logs[a.session]|
    requires p.op == Dispatch(a.next + 1, a.session, s.logs[a.session][a.next])
    ensures Belongs(Latest(MarkOf(s.client), s.wire), p.op)
    ensures |Carried(s.out + (s.wire + [p]), a.session)| == a.next + 1
    ensures Latest(MarkOf(s.client), s.wire + [p]).session in {"", a.session}
  {
    hide Carried, Latest, Fits;
    CarriedConcat(s.out + s.wire, [p], a.session);
    OneCarried(p, a.session);
    FitsPush(MarkOf(s.client), s.wire, p);
    assert s.out + (s.wire + [p]) == (s.out + s.wire) + [p];
  }

  lemma EmitTurns(s: System, a: Attachment)
    requires TakesTurns(s) && s.attached == Some(a) && a.session in s.logs && a.next < |s.logs[a.session]|
    ensures TakesTurns(EmitStep(s, a))
  {
  }

  lemma EmitKeepsCore(s: System)
    requires Core(s) && s.attached.Some?
    requires var a := s.attached.value; a.session in s.logs && a.next < |s.logs[a.session]|
    ensures Core(EmitStep(s, s.attached.value))
  {
    hide GoodLogs, Carried, Latest, Fits, Belongs, Delivered, ClientInStep, RequestsInStep, TakesTurns, Marked;
    var a := s.attached.value;
    var p := Packet(s.conn, Dispatch(a.next + 1, a.session, s.logs[a.session][a.next]));
    EmitAttached(s, a, p);
    FitsPush(MarkOf(s.client), s.wire, p);
    EmitDelivered(s, a, p);
    EmitTurns(s, a);
  }

  lemma EmitDelivered(s: System, a: Attachment, p: Packet)
    requires Delivered(s.out, s.wire, s.logs)
    requires a.session in s.logs && a.next < |s.logs[a.session]| && a.next == |Carried(s.out + s.wire, a.session)|
    requires p.op == Dispatch(a.next + 1, a.session, s.logs[a.session][a.next])
    ensures Delivered(s.out, s.wire + [p], s.logs)
  {
    hide Carried;
    assert s.out + (s.wire + [p]) == (s.out + s.wire) + [p];
    forall id: SessionID ensures IsPrefix(Carried(s.out + (s.wire + [p]), id), s.logs, id) {
      assert IsPrefix(Carried(s.out + s.wire, id), s.logs, id);
      CarriedConcat(s.out + s.wire, [p], id);
      OneCarried(p, id);
    }
  }

  lemma PopKeepsCore(s: System)
    requires Core(s) && s.up != []
    ensures Core(s.(up := s.up[1..]))
  {
    hide GoodLogs, Delivered, Fits, Carried, Latest, ClientInStep;
    assert forall i :: 0 <= i < |s.up| - 1 ==> s.up[1..][i] == s.up[i + 1];
  }

  /** When a request is served, nothing else is under way. */
  lemma RequestAlone(s: System)
    requires TakesTurns(s) && s.open && s.up != [] && !s.up[0].Beat?
    ensures Silent(s.wire) && NoPrompt(s.wire) && s.attached.None? && OnlyBeats(s.up[1..])
  {
    assert forall i :: 0 <= i < |s.up| - 1 ==> s.up[1..][i] == s.up[i + 1];
  }

  lemma AttachNew(s: System, id: SessionID)
    requires Core(s) && s.open && s.attached.None? && Silent(s.wire) && OnlyBeats(s.up)
    requires id != "" && id !in s.logs
    ensures Core(s.(logs := s.logs[id := [Ready(id)]], attached := Some(Attachment(id, 0))))
  {
    hide Fits, Carried, Latest;
    GrowDelivered(s.out, s.wire, s.logs, s.logs[id := [Ready(id)]]);
    assert IsPrefix(Carried(s.out + s.wire, id), s.logs, id);
  }

  lemma AttachAgain(s: System, id: SessionID, n: nat)
    requires Core(s) && s.open && s.attached.None? && Silent(s.wire) && OnlyBeats(s.up)
    requires id in s.logs && n == |Carried(s.out, id)| && MarkOf(s.client).session in {"", id}
    ensures Core(s.(attached := Some(Attachment(id, n))))
  {
    hide GoodLogs, Delivered, Fits, Carried, Latest, ClientInStep, RequestsInStep;
    SilentIsNeutral(MarkOf(s.client), s.wire, id);
    CarriedConcat(s.out, s.wire, id);
  }

  lemma ServeKeepsCore(s: System, verdict: Verdict)
    requires Core(s) && s.open && s.up != []
    ensures Core(ServeStep(s, verdict))
  {
    PopKeepsCore(s);
    var s' := s.(up := s.up[1..]);
    if s.up[0].Beat? {
      ControlKeepsCore(s', HeartbeatAck);
      return;
    }
    RequestAlone(s);
    var cmd := s.up[0];
    assert cmd.Resume? ==> RequestsInStep(MarkOf(s.client), s.up, s.out);
    hide GoodLogs, Delivered, Fits, Carried, Latest, ClientInStep, TakesTurns, AttachedInStep, Core;
    if cmd.Identify? && verdict.Accept? && verdict.chosen != "" && verdict.chosen !in s.logs {
      AttachNew(s', verdict.chosen);
    } else if cmd.Resume? && verdict.Accept? && cmd.session in s.logs && cmd.sequence <= |s.logs[cmd.session]| {
      AppendKeepsCore(s', cmd.session, Resumed);
      AttachAgain(s'.(logs := s.logs[cmd.session := s.logs[cmd.session] + [Resumed]]), cmd.session, cmd.sequence);
    } else {
      PromptKeepsCore(s', verdict.Reject? && verdict.resumable);
    }
  }

  lemma ApplyKeepsCore(s: System, step: Step)
    requires Core(s)
    ensures Core(Apply(s, step))
  {
    assert GoodLogs(s.logs) && Delivered(s.out, s.wire, s.logs) && Fits(MarkOf(s.client), s.wire);
    assert !s.open ==> s.attached.None? && s.up == [] by { TurnsSplit(s); }
    hide Core, GoodLogs, Delivered, Fits, ReadStep, RedialStep, ServeStep, EmitStep, Stopped, Dropped, Forward, Sent;
    match step {
      case Read(env) =>
        if s.running && s.wire != [] {
          if IsFatal(s.wire[0].op) { FatalKeepsCore(s, env); } else { ReadKeepsCore(s, env); }
        }
      case Tick(env) => TickKeepsCore(s, env);
      case Redial(ok, errors, interval) =>
        if s.tokens > 0 { RedialKeepsCore(s, ok, errors, interval); }
      case Stop(keep) => StopKeepsCore(s, keep, MarkOf(s.client));
      case Start => StartKeepsCore(s);
      case Emit =>
        if s.attached.Some? && s.attached.value.session in s.logs
           && s.attached.value.next < |s.logs[s.attached.value.session]| { EmitKeepsCore(s); }
      case Append(session, tag) => if session in s.logs { AppendKeepsCore(s, session, Event(tag)); }
      case Serve(verdict) => if s.open && s.up != [] { ServeKeepsCore(s, verdict); }
      case Control(op) => if s.open && IsControl(op) { ControlKeepsCore(s, op); }
      case Expel(resumable) => if s.open && s.attached.Some? { ExpelKeepsCore(s, resumable); }
      case Drop(keep, code) => if s.open { DropKeepsCore(s, keep, code); }
    }
  }

  lemma StartKeepsCore(s: System)
    requires Core(s)
    ensures Core(s.(running := true, tokens := 1, client := Restarted(s.client)))
  {
    hide GoodLogs, Delivered, Fits, Carried, Latest;
  }

  lemma {:induction false} RunKeepsCore(steps: seq<Step>)
    ensures Core(Run(steps))
  {
    if steps == [] {
      assert forall id: SessionID :: Carried([] + [], id) == [];
    } else {
      RunKeepsCore(steps[..|steps| - 1]);
      ApplyKeepsCore(Run(steps[..|steps| - 1]), steps[|steps| - 1]);
    }
  }

  // The theorems.

  /**
   Exactly once, in order: in every run, with connections lost at any time and sessions resumed,
   replaced or invalidated, what the consumer has been given of each session is the first k
   dispatches the server numbered in it, each once, in order, for some k.
   */
  lemma ExactlyOnce(steps: seq<Step>, session: SessionID)
    ensures var s := Run(steps); IsPrefix(Carried(s.out, session), s.logs, session)
  {
    RunKeepsCore(steps);
    var s := Run(steps);
    DeliveredPart(s.out, s.wire, s.logs, session);
  }

  /**
   A Resume names a session the client has a READY of and the number of its last forwarded
   dispatch: everything before it was forwarded, nothing after it.
   */
  lemma ResumeIsExact(steps: seq<Step>, env: Env)
    requires var s := Run(steps); s.wire != [] && s.wire[0].op.Hello?
    requires var s := Run(steps);
             Handled(s.client, s.wire[0].op, env).sent.Some? && Handled(s.client, s.wire[0].op, env).sent.value.Resume?
    ensures var s := Run(steps); var cmd := Handled(s.client, s.wire[0].op, env).sent.value;
            && cmd.session in s.logs
            && 0 < cmd.sequence <= |s.logs[cmd.session]|
            && Carried(s.out, cmd.session) == Numbered(s.logs[cmd.session], cmd.session, cmd.sequence)
  {
    RunKeepsCore(steps);
    var s := Run(steps);
    ExactlyOnce(steps, s.client.session);
  }

  // The loop.

  /** At most one reconnect token is queued, and one is whenever the running loop has nothing left
      to read from: no connection yet, or a lost one that is drained. */
  ghost predicate NeverStuck(s: System) {
    && s.tokens <= 1 && (!s.open ==> s.attached.None?)
    && (!s.dialed ==> !s.open && s.wire == [])
    && (!s.open && s.wire != [] ==> s.wire[|s.wire| - 1].op.Close?)
    && (s.running && !s.open && s.wire == [] ==> s.tokens == 1)
  }

  lemma CloseReconnects(c: Client, op: Op, env: Env)
    requires op.Close?
    ensures Handled(c, op, env).reconnect
  {
  }

  lemma ApplyNeverStuck(s: System, step: Step)
    requires NeverStuck(s)
    ensures NeverStuck(Apply(s, step))
  {
    match step {
      case Read(env) =>
        if s.running && s.wire != [] && s.wire[0].op.Close? {
          CloseReconnects(s.client, s.wire[0].op, env);
        }
        hide Handled;
        assert s.wire != [] && s.wire[1..] != [] ==> s.wire[1..][|s.wire| - 2] == s.wire[|s.wire| - 1];
      case Serve(_) =>
      case _ =>
    }
  }

  /** In every run the loop is never stuck on a dead source, however often a reconnect is queued. */
  lemma {:induction false} RunNeverStuck(steps: seq<Step>)
    ensures NeverStuck(Run(steps))
  {
    if steps != [] {
      RunNeverStuck(steps[..|steps| - 1]);
      ApplyNeverStuck(Run(steps[..|steps| - 1]), steps[|steps| - 1]);
    }
  }

  /** What is unread came over the current connection, and ops are handled connection by
      connection: none of an earlier one after a reconnect. */
  ghost predicate ConnectionsInOrder(s: System) {
    && (forall i :: 0 <= i < |s.wire| ==> s.wire[i].conn == s.conn)
    && (forall i :: 0 <= i < |s.out| ==> s.out[i].conn <= s.conn)
    && (forall i, j :: 0 <= i < j < |s.out| ==> s.out[i].conn <= s.out[j].conn)
  }

  lemma PushInOrder(out: seq<Packet>, conn: nat, more: seq<Packet>)
    requires forall i :: 0 <= i < |out| ==> out[i].conn <= conn
    requires forall i, j :: 0 <= i < j < |out| ==> out[i].conn <= out[j].conn
    requires forall i :: 0 <= i < |more| ==> more[i].conn == conn
    ensures forall i :: 0 <= i < |out + more| ==> (out + more)[i].conn <= conn
    ensures forall i, j :: 0 <= i < j < |out + more| ==> (out + more)[i].conn <= (out + more)[j].conn
  {
  }

  lemma ReadInOrder(s: System, env: Env)
    requires ConnectionsInOrder(s) && s.wire != []
    ensures ConnectionsInOrder(ReadStep(s, env))
  {
    hide Handled;
    var errs := ErrorPackets(s.conn, Handled(s.client, s.wire[0].op, env).errors);
    PushInOrder(s.out, s.conn, [s.wire[0]]);
    PushInOrder(s.out, s.conn, errs);
    PushInOrder(s.out + errs, s.conn, [s.wire[0]]);
  }

  lemma ReportInOrder(s: System, s': System, errors: nat)
    requires ConnectionsInOrder(s) && s'.conn == s.conn
    requires s'.wire == s.wire || s'.wire == []
    requires s'.out == s.out + ErrorPackets(s.conn, errors)
    ensures ConnectionsInOrder(s')
  {
    PushInOrder(s.out, s.conn, ErrorPackets(s.conn, errors));
  }

  lemma SentInOrder(s: System, op: Op)
    requires ConnectionsInOrder(s)
    ensures ConnectionsInOrder(Sent(s, op))
  {
  }

  lemma RedialInOrder(s: System, ok: bool, errors: nat, interval: int)
    requires ConnectionsInOrder(s) && s.tokens > 0
    ensures ConnectionsInOrder(RedialStep(s, ok, errors, interval))
  {
    var s' := s.(tokens := s.tokens - 1, open := false, dialed := false, wire := [], up := [], attached := None,
                 out := s.out + ErrorPackets(s.conn, errors));
    ReportInOrder(s, s', errors);
  }

  lemma ServeInOrder(s: System, verdict: Verdict)
    requires ConnectionsInOrder(s) && s.up != []
    ensures ConnectionsInOrder(ServeStep(s, verdict))
  {
    var s' := s.(up := s.up[1..]);
    SentInOrder(s', HeartbeatAck);
    SentInOrder(s', InvalidSession(verdict.Reject? && verdict.resumable));
    hide Sent;
  }

  lemma ApplyInOrder(s: System, step: Step)
    requires ConnectionsInOrder(s)
    ensures ConnectionsInOrder(Apply(s, step))
  {
    hide OnBeat, ReadStep, RedialStep, ServeStep;
    match step {
      case Read(env) => if s.wire != [] { ReadInOrder(s, env); }
      case Tick(env) =>
        var e := OnBeat(s.client, env);
        ReportInOrder(s, Forward(s, e), e.errors);
      case Redial(ok, errors, interval) => if s.tokens > 0 { RedialInOrder(s, ok, errors, interval); }
      case Serve(verdict) => if s.up != [] { ServeInOrder(s, verdict); }
      case Control(op) => SentInOrder(s, op);
      case _ =>
    }
  }

  lemma {:induction false} RunInOrder(steps: seq<Step>)
    ensures ConnectionsInOrder(Run(steps))
  {
    if steps != [] {
      RunInOrder(steps[..|steps| - 1]);
      ApplyInOrder(Run(steps[..|steps| - 1]), steps[|steps| - 1]);
    }
  }

  /** The client's session and sequence are those of the latest READY and the latest dispatch
      forwarded since the last invalidation, be it by the server or by closing. */
  ghost predicate Tracks(s: System) {
    s.since <= |s.out| && MarkOf(s.client) == Latest(Mark("", 0), s.out[s.since..])
  }

  lemma TrackPush(out: seq<Packet>, since: nat, errs: nat, conn: nat, p: Packet, m: Mark)
    requires since <= |out| && m == Latest(Mark("", 0), out[since..])
    ensures Latest(Mark("", 0), (out + ErrorPackets(conn, errs))[since..]) == m
    ensures Latest(Mark("", 0), (out + ErrorPackets(conn, errs) + [p])[since..]) == Marked(m, p.op)
  {
    hide Latest;
    var tail, e := out[since..], ErrorPackets(conn, errs);
    assert (out + e)[since..] == tail + e;
    assert (out + e + [p])[since..] == tail + e + [p];
    LatestConcat(Mark("", 0), tail, e);
    LatestConcat(Mark("", 0), tail + e, [p]);
    ErrorsAreNeutral(conn, errs, "", m);
    OneCarried(p, "");
  }

  lemma ApplyTracks(s: System, step: Step)
    requires Tracks(s)
    ensures Tracks(Apply(s, step))
  {
    hide Latest;
    var none := Packet(0, BackgroundError);
    assert Latest(Mark("", 0), []) == Mark("", 0) by { LatestEmpty(); }
    match step {
      case Read(env) =>
        if s.wire != [] {
          HandledMark(s.client, s.wire[0].op, env);
          var e := Handled(s.client, s.wire[0].op, env);
          TrackPush(s.out, s.since, e.errors, s.conn, s.wire[0], MarkOf(s.client));
          var stopped := s.out + [s.wire[0]];
          assert stopped[|stopped|..] == [];
        }
        hide Handled, Marked;
      case Tick(env) =>
        var e := OnBeat(s.client, env);
        TrackPush(s.out, s.since, e.errors, s.conn, none, MarkOf(s.client));
      case Redial(_, errors, _) =>
        TrackPush(s.out, s.since, errors, s.conn, none, MarkOf(s.client));
        var out' := s.out + ErrorPackets(s.conn, errors);
        assert out'[|out'|..] == [];
      case Stop(_) =>
        assert s.out[|s.out|..] == [];
      case _ =>
    }
  }

  lemma LatestEmpty()
    ensures Latest(Mark("", 0), []) == Mark("", 0)
  {
  }

  lemma {:induction false} RunTracks(steps: seq<Step>)
    ensures Tracks(Run(steps))
  {
    if steps != [] {
      RunTracks(steps[..|steps| - 1]);
      ApplyTracks(Run(steps[..|steps| - 1]), steps[|steps| - 1]);
    }
  }

  /** So a Resume carries exactly these two. */
  lemma ResumeNamesLatest(steps: seq<Step>, env: Env)
    requires var s := Run(steps); s.wire != [] && Handled(s.client, s.wire[0].op, env).sent.Some?
    requires var s := Run(steps); Handled(s.client, s.wire[0].op, env).sent.value.Resume?
    ensures var s := Run(steps); var cmd := Handled(s.client, s.wire[0].op, env).sent.value;
            s.since <= |s.out| && Mark(cmd.session, cmd.sequence) == Latest(Mark("", 0), s.out[s.since..])
  {
    RunTracks(steps);
    HandledRequest(Run(steps).client, Run(steps).wire[0].op, env);
  }

  // Reconnecting.

  lemma OneMoreStep(steps: seq<Step>, step: Step)
    ensures Run(steps + [step]) == Apply(Run(steps), step)
  {
    assert (steps + [step])[..|steps|] == steps;
  }

  /** The client has a session whose last acknowledgement, if there was one, is less than 15 minutes old. */
  predicate CanResume(c: Client, now: int) {
    c.session != "" && (c.echoBeat.None? || now - c.echoBeat.value < 900_000_000_000)
  }

  /**
   In every run, a Hello that is read makes the client ask for exactly what comes after everything it has
   forwarded of its session, if it has one that can be resumed, and for a new session otherwise.
   */
  lemma HelloResumes(steps: seq<Step>, env: Env)
    requires var s := Run(steps); s.running && s.open && s.wire != [] && s.wire[0].op.Hello? && env.sendOk
    ensures var s, s' := Run(steps), Run(steps + [Read(env)]);
            s'.up == s.up + [if CanResume(s.client, env.now)
                             then Resume(s.client.session, |Carried(s.out, s.client.session)|) else Identify]
  {
    hide Run, Handled, Carried;
    var s := Run(steps);
    OneMoreStep(steps, Read(env));
    ResumesIff(s.client, s.wire[0].op.interval, env);
    assert ClientInStep(MarkOf(s.client), s.out) by { RunKeepsCore(steps); }
  }

  /**
   In every run, a server that accepts a Resume it reads continues the session exactly after what the client
   has forwarded of it.
   */
  lemma ResumeAttaches(steps: seq<Step>, chosen: SessionID)
    requires var s := Run(steps); s.open && s.up != [] && s.up[0].Resume?
    ensures var s, s' := Run(steps), Run(steps + [Serve(Accept(chosen))]);
            var id := s.up[0].session;
            && id in s.logs && |Carried(s.out, id)| <= |s.logs[id]|
            && s'.attached == Some(Attachment(id, |Carried(s.out, id)|)) && s'.up == s.up[1..]
            && s'.logs == s.logs[id := s.logs[id] + [Resumed]] && s'.wire == s.wire && s'.out == s.out
            && s'.running == s.running
  {
    var s := Run(steps);
    OneMoreStep(steps, Serve(Accept(chosen)));
    RunKeepsCore(steps);
    ExactlyOnce(steps, s.up[0].session);
    assert 0 < s.up[0].sequence == |Carried(s.out, s.up[0].session)|;
  }

  /** The server sends one dispatch more, and the client reads it: `j` times. */
  function CatchUp(env: Env, j: nat): seq<Step> {
    if j == 0 then [] else CatchUp(env, j - 1) + [Emit, Read(env)]
  }

  lemma CatchesOne(steps: seq<Step>, env: Env)
    requires var s := Run(steps);
             && s.running && s.wire == [] && s.attached.Some? && s.attached.value.session in s.logs
             && s.attached.value.next < |s.logs[s.attached.value.session]|
    ensures var s, s' := Run(steps), Run(steps + [Emit] + [Read(env)]);
            && s'.running && s'.wire == [] && s'.logs == s.logs
            && s'.attached == Some(s.attached.value.(next := s.attached.value.next + 1))
  {
    hide Run, Handled;
    OneMoreStep(steps, Emit);
    OneMoreStep(steps + [Emit], Read(env));
  }

  lemma {:induction false} CatchesUp(steps: seq<Step>, env: Env, j: nat)
    requires var s := Run(steps);
             && s.running && s.wire == [] && s.attached.Some? && s.attached.value.session in s.logs
             && s.attached.value.next + j <= |s.logs[s.attached.value.session]|
    ensures var s, s' := Run(steps), Run(steps + CatchUp(env, j));
            && s'.running && s'.wire == [] && s'.logs == s.logs
            && s'.attached == Some(s.attached.value.(next := s.attached.value.next + j))
  {
    hide Run;
    if j == 0 {
      assert steps + CatchUp(env, j) == steps;
    } else {
      CatchesUp(steps, env, j - 1);
      CatchesOne(steps + CatchUp(env, j - 1), env);
      assert steps + CatchUp(env, j) == steps + CatchUp(env, j - 1) + [Emit] + [Read(env)];
    }
  }

  /** The loop dials, the client reads the Hello, and the server accepts what it is asked. */
  function Reconnecting(errors: nat, interval: int, env: Env): seq<Step> {
    [Redial(true, errors, interval)] + [Read(env)] + [Serve(Accept(""))]
  }

  /** A reconnect that works spends the token and replaces the connection by one on which only a Hello waits. */
  lemma RedialOpens(steps: seq<Step>, errors: nat, interval: int)
    requires Run(steps).running && Run(steps).tokens > 0
    ensures var s, s' := Run(steps), Run(steps + [Redial(true, errors, interval)]);
            && s'.running && s'.open && s'.dialed && s'.up == [] && s'.client == s.client && s'.logs == s.logs
            && s'.tokens == s.tokens - 1 && s'.wire == [Packet(s.conn + 1, Hello(interval))]
            && forall id :: Carried(s'.out, id) == Carried(s.out, id)
  {
    hide Run, Carried;
    var s := Run(steps);
    OneMoreStep(steps, Redial(true, errors, interval));
    forall id ensures Carried(s.out + ErrorPackets(s.conn, errors), id) == Carried(s.out, id) {
      ReportCarried(s.out, s.conn, errors, [], id);
    }
  }

  /** One that gives up ends the loop, and with it the session; the token is spent all the same. */
  lemma RedialGivesUp(steps: seq<Step>, errors: nat, interval: int)
    requires Run(steps).running && Run(steps).tokens > 0
    ensures var s, s' := Run(steps), Run(steps + [Redial(false, errors, interval)]);
            && !s'.running && !s'.open && !s'.dialed && s'.wire == [] && s'.up == [] && s'.attached.None?
            && s'.tokens == s.tokens - 1 && s'.client.session == "" && s'.client.sequence == 0
            && s'.out == s.out + ErrorPackets(s.conn, errors)
  {
    hide Run;
    OneMoreStep(steps, Redial(false, errors, interval));
  }

  lemma HelloIsRead(steps: seq<Step>, env: Env)
    requires var s := Run(steps);
             s.running && s.open && s.up == [] && |s.wire| == 1 && s.wire[0].op.Hello? && env.sendOk
    requires CanResume(Run(steps).client, env.now)
    ensures var s, s' := Run(steps), Run(steps + [Read(env)]);
            && s'.running && s'.open && s'.wire == [] && s'.logs == s.logs
            && s'.up == [Resume(s.client.session, |Carried(s.out, s.client.session)|)]
            && Carried(s'.out, s.client.session) == Carried(s.out, s.client.session)
  {
    hide Run, Handled, Carried;
    var s := Run(steps);
    HelloResumes(steps, env);
    OneMoreStep(steps, Read(env));
    ReadKeepsCarried(s.out, Handled(s.client, s.wire[0].op, env).errors, s.conn, s.wire, s.client.session);
    OneCarried(s.wire[0], s.client.session);
  }

  /** From any reachable state, if the client's session can be resumed, a reconnect attaches it where it was left:
      nothing that was forwarded is sent again, and nothing that was not is left out. */
  lemma ReconnectResumes(steps: seq<Step>, errors: nat, interval: int, env: Env)
    requires var s := Run(steps); s.running && s.tokens > 0 && CanResume(s.client, env.now) && env.sendOk
    ensures var s, s' := Run(steps), Run(steps + Reconnecting(errors, interval, env));
            var id := s.client.session;
            && id in s.logs && |Carried(s.out, id)| <= |s.logs[id]|
            && s'.running && s'.wire == []
            && s'.attached == Some(Attachment(id, |Carried(s.out, id)|))
            && s'.logs == s.logs[id := s.logs[id] + [Resumed]]
  {
    hide Run, Carried;
    var dialed := steps + [Redial(true, errors, interval)];
    var read := dialed + [Read(env)];
    RedialOpens(steps, errors, interval);
    HelloIsRead(dialed, env);
    ResumeAttaches(read, "");
    assert read + [Serve(Accept(""))] == steps + Reconnecting(errors, interval, env);
  }

  /**
   Nothing is lost for good: from any reachable state in which a reconnect is due and the session can be resumed,
   there is a continuation after which all the dispatches of the session have been forwarded, each once and in order,
   and the RESUMED that ends the replay with them.
   */
  lemma NothingIsLost(steps: seq<Step>, errors: nat, interval: int, env: Env)
    requires var s := Run(steps); s.running && s.tokens > 0 && CanResume(s.client, env.now) && env.sendOk
    ensures var s := Run(steps); var id := s.client.session;
            && id in s.logs && |Carried(s.out, id)| <= |s.logs[id]|
            && var log := s.logs[id] + [Resumed];
            var all := steps + Reconnecting(errors, interval, env) + CatchUp(env, |log| - |Carried(s.out, id)|);
            Carried(Run(all).out, id) == Numbered(log, id, |log|)
  {
    hide Run, Carried, Reconnecting, CatchUp;
    var s := Run(steps);
    var id := s.client.session;
    ReconnectResumes(steps, errors, interval, env);
    var again := steps + Reconnecting(errors, interval, env);
    var left := |s.logs[id]| + 1 - |Carried(s.out, id)|;
    CatchesUp(again, env, left);
    ExactlyOnce(again + CatchUp(env, left), id);
    AllForwarded(again + CatchUp(env, left), id);
  }

  /** When all of a session has been sent and read, all of it has been forwarded. */
  lemma AllForwarded(steps: seq<Step>, id: SessionID)
    requires var s := Run(steps);
             && s.wire == [] && id in s.logs && s.attached == Some(Attachment(id, |s.logs[id]|))
    ensures |Carried(Run(steps).out, id)| == |Run(steps).logs[id]|
  {
    var s := Run(steps);
    assert AttachedInStep(s) by { RunKeepsCore(steps); }
    assert s.out + s.wire == s.out;
    hide Run, Carried;
  }

  /** In every run, an op that is read leaves the reconnect token queued exactly when it was, or when the op asks for
      a reconnect: it is a close, a reconnect request or an invalid session, sending an answer fails, or a beat is due
      on a dead connection. */
  lemma ReadQueuesIff(steps: seq<Step>, env: Env)
    requires var s := Run(steps); s.running && s.wire != [] && !IsFatal(s.wire[0].op)
    ensures var s, s' := Run(steps), Run(steps + [Read(env)]); var op := s.wire[0].op;
            s'.tokens == 1 <==>
            || s.tokens == 1
            || op.Close? || op.Reconnect? || op == InvalidSession(false)
            || (op == InvalidSession(true) && !(env.waitOk && env.sendOk))
            || (op.Hello? && !env.sendOk)
            || (op.Heartbeat? && (Overdue(s.client, env.now) || !env.sendOk))
  {
    hide Run, Handled;
    var s := Run(steps);
    OneMoreStep(steps, Read(env));
    RunNeverStuck(steps);
    ReconnectsIff(s.client, s.wire[0].op, env);
  }

  /** While the loop is not running it has neither a session nor a connection. */
  predicate AtRest(s: System) {
    !s.running ==> s.client.session == "" && s.client.sequence == 0 && !s.open
  }

  lemma {:induction false} RunStopped(steps: seq<Step>)
    ensures AtRest(Run(steps))
  {
    if steps != [] {
      RunStopped(steps[..|steps| - 1]);
      ApplyStopped(Run(steps[..|steps| - 1]), steps[|steps| - 1]);
    }
  }

  lemma ApplyStopped(s: System, step: Step)
    requires AtRest(s)
    ensures AtRest(Apply(s, step))
  {
    hide Handled, OnBeat;
  }

  /** Cancelling the context ends a running loop: it closes the connection and forgets the session, and what was
      unread after `keep` packets is lost. */
  lemma StopEnds(steps: seq<Step>, keep: nat)
    ensures var s, s' := Run(steps), Run(steps + [Stop(keep)]);
            && !s'.running && !s'.open && s'.client.session == "" && s'.client.sequence == 0
            && s'.out == s.out && s'.up == [] && s'.attached.None? && |s'.wire| <= |s.wire| + 1
            && (!s.running ==> s' == s)
  {
    hide Run;
    OneMoreStep(steps, Stop(keep));
    RunStopped(steps);
    RunKeepsCore(steps);
    TurnsSplit(Run(steps));
  }

  /** In every run a loop that is started again identifies anew, dials at once, and its connection is not dead
      before its first Hello. */
  lemma StartsAfresh(steps: seq<Step>, now: int)
    requires !Run(steps).running
    ensures var s := Run(steps + [Start]);
            && s.running && s.tokens == 1 && s.client.session == "" && s.client.sequence == 0
            && s.client.lastSent == 0 && !Overdue(s.client, now)
  {
    hide Run;
    OneMoreStep(steps, Start);
    RunStopped(steps);
  }

  /** In every run a beat carries the number of dispatches forwarded of the client's session, if it has one. */
  lemma BeatsCount(steps: seq<Step>, env: Env)
    requires var s := Run(steps);
             s.running && s.open && s.client.session != "" && env.sendOk && !Overdue(s.client, env.now)
    ensures var s, s' := Run(steps), Run(steps + [Tick(env)]);
            s'.up == s.up + [Beat(|Carried(s.out, s.client.session)|)]
  {
    hide Run, Carried;
    var s := Run(steps);
    OneMoreStep(steps, Tick(env));
    assert ClientInStep(MarkOf(s.client), s.out) by { RunKeepsCore(steps); }
  }
}
