// The REST rate limiter: buckets (api/rate/rate.go) behind a channel lock
// (internal/moreatomic/mutex.go). Times are integers, in nanoseconds.

module RateBucket {
  import opened Optional

  const EXTRA_DELAY: int := 250_000_000
  const SECOND: int := 1_000_000_000

  /** A response header: missing, present but not parsable, or parsed. */
  datatype Field<T> = Absent | Malformed | Given(value: T)

  /** The rate limit headers of a response, if there was one. X-RateLimit-Reset is a point in time. */
  datatype Headers = NoHeaders
                   | Headers(global: bool, retryAfter: Field<int>, reset: Field<int>, remaining: Field<nat>)

  /** `custom` is the minimum time between requests of a custom limit. */
  datatype Bucket = Bucket(custom: Option<nat>, remaining: nat, reset: int, lastReset: Option<int>)

  function NewBucket(custom: Option<nat>): Bucket {
    Bucket(custom, 1, 0, None)
  }

  /** The time up to which Acquire has to wait, decided at `now`. */
  function Until(b: Bucket, global: int, now: int): int {
    if b.remaining == 0 && b.reset > now then b.reset else global
  }

  function Take(b: Bucket): Bucket {
    if b.remaining > 0 then b.(remaining := b.remaining - 1) else b
  }

  /** Whether a custom limit's reset time is due to be moved by a Release at `now`. */
  predicate CustomDue(b: Bucket, now: int) {
    b.custom.Some? && (b.lastReset.None? || now - b.lastReset.value >= b.custom.value)
  }

  /** The reset time, the global limit and whether parsing goes on, from the headers. */
  function ResetFrom(b: Bucket, global: int, h: Headers, now: int): (int, int, bool)
    requires h.Headers?
  {
    match h.retryAfter
    case Malformed => (b.reset, global, false)
    case Given(i) => if h.global then (b.reset, now + i * SECOND, true) else (now + i * SECOND, global, true)
    case Absent =>
      match h.reset
      case Malformed => (b.reset, global, false)
      case Given(t) => (t + EXTRA_DELAY, global, true)
      case Absent => (b.reset, global, true)
  }

  /** Release: the bucket, the global limit and whether an error is returned. */
  function Released(b: Bucket, global: int, h: Headers, now: int): (Bucket, int, bool) {
    if b.custom.Some? then
      (if CustomDue(b, now) then b.(lastReset := Some(now), reset := now + b.custom.value) else b, global, false)
    else if h.NoHeaders? then (b, global, false)
    else
      var (reset, g, ok) := ResetFrom(b, global, h, now);
      if !ok then (b, global, true)
      else if h.remaining.Malformed? then (b.(reset := reset), g, true)
      else if h.remaining.Given? then (b.(reset := reset, remaining := h.remaining.value), g, false)
      else (b.(reset := reset), g, false)
  }

  /** moreatomic.CtxMutex: a channel with one slot. */
  class CtxMutex {
    var full: bool

    constructor ()
      ensures !full
    {
      full := false;
    }

    /** Waits until the slot is free, or until the context is cancelled. */
    method Lock(cancelled: bool) returns (ok: bool)
      requires cancelled || !full
      modifies this
      ensures ok == !cancelled && full == if ok then true else old(full)
    {
      if cancelled {
        return false;
      }
      full := true;
      return true;
    }

    /** Panics when the slot is free. */
    method Unlock()
      requires full
      modifies this
      ensures !full
    {
      full := false;
    }

    method TryUnlock() returns (unlocked: bool)
      modifies this
      ensures unlocked == old(full) && !full
    {
      unlocked := full;
      full := false;
    }
  }

  /** What Acquire returns. */
  datatype Outcome = Acquired | TimedOutEarly | Cancelled

  /** When the context of a request is cancelled. */
  datatype GiveUp = Never | WhileLocking | WhileWaiting

  class Cell {
    const lock: CtxMutex
    const custom: Option<nat>
    var remaining: nat
    var reset: int
    var lastReset: Option<int>

    constructor (custom: Option<nat>)
      ensures fresh(lock) && !lock.full && View() == NewBucket(custom)
    {
      lock := new CtxMutex();
      this.custom := custom;
      remaining, reset, lastReset := 1, 0, None;
    }

    function View(): Bucket
      reads this
    {
      Bucket(custom, remaining, reset, lastReset)
    }

    /**
     Limiter.Acquire on this bucket: called when the lock can be taken, unless it gives up before, at
     `now`, and with the timer firing at `wake`, unless it gives up before that. A refusal keeps the
     lock, and it is Release that gives it back; a wait given up gives it back itself.
     */
    method Acquire(global: int, now: int, wake: int, dontWait: bool, deadline: Option<int>, giveUp: GiveUp)
      returns (r: Outcome, at: int)
      requires giveUp == WhileLocking || !lock.full
      requires giveUp == Never ==> wake >= now && wake >= Until(View(), global, now)
      modifies this, lock
      ensures giveUp == WhileLocking ==> r == Cancelled && lock.full == old(lock.full)
      ensures giveUp != WhileLocking ==>
        var until := Until(old(View()), global, now);
        var refused := until > now && (dontWait || (deadline.Some? && until > deadline.value));
        && r == (if refused then TimedOutEarly
                 else if until > now && giveUp == WhileWaiting then Cancelled
                 else Acquired)
        && (lock.full <==> r != Cancelled)
        && at == if r == Acquired && until > now then wake else now
      ensures r == Acquired ==> at >= Until(old(View()), global, now)
      ensures View() == if r == Acquired then Take(old(View())) else old(View())
    {
      at := now;
      var locked := lock.Lock(giveUp == WhileLocking);
      if !locked {
        return Cancelled, at;
      }
      var until: int;
      if remaining == 0 && reset > now {
        until := reset;
      } else {
        until := global;
      }
      if until > now {
        if dontWait {
          return TimedOutEarly, at;
        } else if deadline.Some? && until > deadline.value {
          return TimedOutEarly, at;
        }
        if giveUp == WhileWaiting {
          lock.Unlock();
          return Cancelled, at;
        }
        at := wake;
      }
      if remaining > 0 {
        remaining := remaining - 1;
      }
      return Acquired, at;
    }

    /** The part of Release that reads the headers; the lock is not touched. */
    method Update(global: int, headers: Headers, now: int) returns (g: int, failed: bool)
      modifies this
      ensures (View(), g, failed) == Released(old(View()), global, headers, now)
    {
      if custom.Some? {
        if lastReset.None? || now - lastReset.value >= custom.value {
          lastReset := Some(now);
          reset := now + custom.value;
        }
        return global, false;
      }
      if headers.NoHeaders? {
        return global, false;
      }
      g := global;
      if !headers.retryAfter.Absent? {
        if headers.retryAfter.Malformed? {
          return global, true;
        }
        var at := now + headers.retryAfter.value * SECOND;
        if headers.global {
          g := at;
        } else {
          reset := at;
        }
      } else if !headers.reset.Absent? {
        if headers.reset.Malformed? {
          return global, true;
        }
        reset := headers.reset.value + EXTRA_DELAY;
      }
      if !headers.remaining.Absent? {
        if headers.remaining.Malformed? {
          return g, true;
        }
        remaining := headers.remaining.value;
      }
      return g, false;
    }

    /** Limiter.Release on this bucket: whatever the headers hold, the lock is given back. */
    method Release(global: int, headers: Headers, now: int) returns (g: int, failed: bool, unlocked: bool)
      modifies this, lock
      ensures (View(), g, failed) == Released(old(View()), global, headers, now)
      ensures unlocked == old(lock.full) && !lock.full
    {
      g, failed := Update(global, headers, now);
      unlocked := lock.TryUnlock();
    }
  }

  /**
   What the headers of a response mean for a bucket without a custom limit. A Retry-After of i seconds goes before a
   reset time, and moves the global limit instead of the bucket's reset time if it is a global one; a quarter of a
   second is added to a reset time; and the first field that cannot be parsed ends it, with an error.
   */
  lemma HeadersMean(b: Bucket, global: int, h: Headers, now: int)
    requires b.custom.None? && h.Headers?
    ensures var (b', global', failed) := Released(b, global, h, now);
            var broken := h.retryAfter.Malformed? || (h.retryAfter.Absent? && h.reset.Malformed?);
            && (failed <==> broken || h.remaining.Malformed?)
            && global' == (if h.global && h.retryAfter.Given? then now + h.retryAfter.value * 1_000_000_000 else global)
            && b'.reset == (if h.retryAfter.Given? && !h.global then now + h.retryAfter.value * 1_000_000_000
                            else if h.retryAfter.Absent? && h.reset.Given? then h.reset.value + 250_000_000
                            else b.reset)
            && b'.remaining == (if h.remaining.Given? && !broken then h.remaining.value else b.remaining)
            && b'.custom == b.custom && b'.lastReset == b.lastReset
  {
  }

  /** A custom limit is not moved by headers, and without a response nothing else is either. */
  lemma HeadersAreIgnored(b: Bucket, global: int, h: Headers, now: int)
    requires b.custom.Some? || h.NoHeaders?
    ensures var (b', global', failed) := Released(b, global, h, now);
            && global' == global && !failed && b'.remaining == b.remaining && b'.custom == b.custom
            && (b'.lastReset, b'.reset)
               == if b.custom.Some? && (b.lastReset.None? || now - b.lastReset.value >= b.custom.value)
                  then (Some(now), now + b.custom.value) else (b.lastReset, b.reset)
  {
  }

  /** A Retry-After of i seconds for the bucket itself keeps it shut that long, if it has no requests left. */
  lemma OwnRetryWaits(b: Bucket, global: int, h: Headers, now: int, i: int, g: int, later: int)
    requires b.custom.None? && h.Headers? && !h.global && h.retryAfter == Given(i) && h.remaining == Given(0)
    ensures var (b', global', failed) := Released(b, global, h, now);
            && !failed && global' == global
            && (Until(b', g, later) <= later ==> later >= now + i * 1_000_000_000)
  {
  }

  /** A response that leaves no requests until t keeps the bucket shut until a little after t. */
  lemma ExhaustedWaits(b: Bucket, global: int, h: Headers, now: int, t: int, g: int, later: int)
    requires b.custom.None? && h.Headers? && h.retryAfter.Absent? && h.reset == Given(t) && h.remaining == Given(0)
    ensures var (b', global', failed) := Released(b, global, h, now);
            && !failed && global' == global
            && (Until(b', g, later) <= later ==> later >= t + 250_000_000)
  {
  }

  /** A global limit of i seconds holds back every bucket that has requests left. */
  lemma GlobalRetryWaits(b: Bucket, global: int, h: Headers, now: int, i: int, other: Bucket, later: int)
    requires b.custom.None? && h.Headers? && h.global && h.retryAfter == Given(i)
    ensures var (b', global', _) := Released(b, global, h, now);
            && b'.reset == b.reset && global' == now + i * 1_000_000_000
            && (other.remaining > 0 && Until(other, global', later) <= later ==> later >= now + i * 1_000_000_000)
  {
  }

  /** When a request that Acquire looks at now goes through no earlier than the global limit: always,
      unless its bucket is exhausted and opens before that. It then waits for the bucket only. */
  lemma GlobalLimitKeptIff(b: Bucket, global: int, now: int)
    ensures (Until(b, global, now) >= global || now >= global) <==> !(b.remaining == 0 && now < b.reset < global)
  {
  }

  /**
   Spacing, exactly. Take a custom bucket with no turns left whose last reset was at l, and a
   request released at s. The bucket itself holds every later request back until s + R if and only
   if that Release moves the reset time, or the last one was moved at that very instant.
   */
  lemma SpacingIff(b: Bucket, h: Headers, global: int, s: int)
    requires b.custom.Some? && b.remaining == 0
    requires b.lastReset.Some? ==> b.lastReset.value <= s && b.reset == b.lastReset.value + b.custom.value
    ensures var b' := Released(b, global, h, s).0;
            (forall now, g | now >= s && g <= now :: Until(b', g, now) <= now ==> now >= s + b.custom.value)
            <==> CustomDue(b, s) || (b.lastReset == Some(s))
  {
    var b' := Released(b, global, h, s).0;
    if !CustomDue(b, s) && b.lastReset != Some(s) {
      var now := if b'.reset > s then b'.reset else s;
      assert Until(b', now, now) <= now && now < s + b.custom.value;
    }
  }
}

/** Requests in flight, interleaved in any order (utils/httputil/client.go runs the steps of one). */
module Limiter {
  import opened Optional
  import opened RateBucket

  type Key = string

  datatype Cell = Cell(full: bool, b: Bucket)

  /** How far one attempt of a request is: waiting for the lock, past it, sleeping until a time,
      granted, sent, or refused. A failing request option ends a granted attempt without a send. */
  datatype Phase = Idle | Queued | Locked | Waiting(until: int) | Granted | Sent | Refused

  datatype Request = Request(key: Key, phase: Phase)

  datatype Event =
    | SendAt(key: Key, at: int)
    | ReleaseAt(key: Key, at: int, sent: bool)
    | Budget(key: Key, remaining: nat, reset: int)   // a Release changed what is left or when it ends

  /** `limits` are the custom limits, matched by substring in order. */
  datatype State = State(
    clock: nat, global: int, limits: seq<(string, nat)>,
    cells: map<Key, Cell>, reqs: map<nat, Request>, log: seq<Event>)

  datatype Step =
    | Begin(id: nat, key: Key)
    | Lock(id: nat)
    | Check(id: nat, dontWait: bool, deadline: Option<int>)
    | Wake(id: nat)
    | Send(id: nat)
    | Release(id: nat, headers: Headers)
    | Pass(time: nat)

  function Init(limits: seq<(string, nat)>): State {
    State(0, 0, limits, map[], map[], [])
  }

  predicate Contains(path: string, part: string) {
    |part| <= |path| && (part == path[..|part|] || (path != [] && Contains(path[1..], part)))
  }

  function CustomFor(limits: seq<(string, nat)>, key: Key): Option<nat> {
    if limits == [] then None
    else if Contains(key, limits[0].0) then Some(limits[0].1)
    else CustomFor(limits[1..], key)
  }

  /** A limit applies to the paths that have its text somewhere, and the first one that does counts. */
  lemma {:induction false} ContainsIff(path: string, part: string)
    ensures Contains(path, part) <==> exists i :: 0 <= i <= |path| - |part| && PartAt(path, part, i)
  {
    if |part| <= |path| && path != [] {
      ContainsIff(path[1..], part);
      if i :| 0 <= i <= |path| - 1 - |part| && PartAt(path[1..], part, i) {
        assert PartAt(path, part, i + 1);
      }
      if i :| 0 <= i <= |path| - |part| && PartAt(path, part, i) {
        assert i > 0 ==> PartAt(path[1..], part, i - 1);
      }
      assert PartAt(path, part, 0) <==> part == path[..|part|];
    } else {
      assert |part| <= |path| ==> PartAt(path, part, 0);
    }
  }

  predicate PartAt(path: string, part: string, i: int)
    requires 0 <= i <= |path| - |part|
  {
    path[i..i + |part|] == part
  }

  lemma {:induction false} CustomForIff(limits: seq<(string, nat)>, key: Key, i: nat)
    requires i < |limits| && forall j :: 0 <= j < i ==> !Contains(key, limits[j].0)
    ensures Contains(key, limits[i].0) ==> CustomFor(limits, key) == Some(limits[i].1)
    ensures (forall j :: 0 <= j < |limits| ==> !Contains(key, limits[j].0)) <==> CustomFor(limits, key) == None
  {
    hide Contains;
    if |limits| > 1 && !Contains(key, limits[0].0) {
      CustomForIff(limits[1..], key, if i > 0 then i - 1 else 0);
      assert forall j :: 1 <= j < |limits| ==> limits[j] == limits[1..][j - 1];
    }
  }

  /** The attempt holds its bucket's lock. */
  predicate Holds(p: Phase) {
    p != Idle && p != Queued
  }

  predicate Known(s: State, id: nat) {
    id in s.reqs && s.reqs[id].key in s.cells
  }

  function MoveTo(s: State, id: nat, p: Phase): State
    requires id in s.reqs
  {
    s.(reqs := s.reqs[id := s.reqs[id].(phase := p)])
  }

  function SetBucket(s: State, key: Key, b: Bucket): State
    requires key in s.cells
  {
    s.(cells := s.cells[key := s.cells[key].(b := b)])
  }

  /** The time budget is met: the turn is taken. */
  function Grant(s: State, id: nat): State
    requires id in s.reqs && s.reqs[id].key in s.cells
  {
    var key := s.reqs[id].key;
    MoveTo(SetBucket(s, key, Take(s.cells[key].b)), id, Granted)
  }

  function CheckStep(s: State, id: nat, dontWait: bool, deadline: Option<int>): State
    requires id in s.reqs && s.reqs[id].key in s.cells
  {
    var until := Until(s.cells[s.reqs[id].key].b, s.global, s.clock);
    if until <= s.clock then Grant(s, id)
    else if dontWait || (deadline.Some? && until > deadline.value) then MoveTo(s, id, Refused)
    else MoveTo(s, id, Waiting(until))
  }

  /** Release with its TryUnlock; only a response brings headers. */
  function ReleaseStep(s: State, id: nat, headers: Headers): State
    requires id in s.reqs && s.reqs[id].key in s.cells
  {
    var key, sent := s.reqs[id].key, s.reqs[id].phase.Sent?;
    var b := s.cells[key].b;
    var (b', g, _) := Released(b, s.global, if sent then headers else NoHeaders, s.clock);
    var changed := b'.remaining != b.remaining || b'.reset != b.reset;
    MoveTo(s, id, Idle).(
      global := g,
      cells := s.cells[key := Cell(false, b')],
      log := s.log + [ReleaseAt(key, s.clock, sent)] + if changed then [Budget(key, b'.remaining, b'.reset)] else [])
  }

  function Apply(s: State, step: Step): State {
    match step
    case Begin(id, key) =>
      if id in s.reqs && s.reqs[id].phase != Idle then s
      else s.(reqs := s.reqs[id := Request(key, Queued)],
              cells := if key in s.cells then s.cells
                       else s.cells[key := Cell(false, NewBucket(CustomFor(s.limits, key)))])
    case Lock(id) =>
      if Known(s, id) && s.reqs[id].phase == Queued && !s.cells[s.reqs[id].key].full then
        var key := s.reqs[id].key;
        MoveTo(s, id, Locked).(cells := s.cells[key := s.cells[key].(full := true)])
      else s
    case Check(id, dontWait, deadline) =>
      if Known(s, id) && s.reqs[id].phase == Locked then CheckStep(s, id, dontWait, deadline) else s
    case Wake(id) =>
      if Known(s, id) && s.reqs[id].phase.Waiting? && s.clock >= s.reqs[id].phase.until then Grant(s, id) else s
    case Send(id) =>
      if Known(s, id) && s.reqs[id].phase == Granted then
        MoveTo(s, id, Sent).(log := s.log + [SendAt(s.reqs[id].key, s.clock)])
      else s
    case Release(id, headers) =>
      if Known(s, id) && s.reqs[id].phase in {Granted, Sent, Refused} then ReleaseStep(s, id, headers) else s
    case Pass(time) => s.(clock := s.clock + time)
  }

  function Run(limits: seq<(string, nat)>, steps: seq<Step>): State {
    if steps == [] then Init(limits) else Apply(Run(limits, steps[..|steps| - 1]), steps[|steps| - 1])
  }

  // Mutual exclusion.

  /** The attempt is the one that holds the lock of its bucket. */
  predicate HoldsKey(s: State, id: nat, key: Key) {
    id in s.reqs && s.reqs[id].key == key && Holds(s.reqs[id].phase)
  }

  /** A bucket's lock is taken exactly when one attempt on it is under way, and never by two. */
  ghost predicate Exclusive(s: State) {
    && (forall id <- s.reqs :: s.reqs[id].phase != Idle ==> s.reqs[id].key in s.cells)
    && (forall key, i, j :: HoldsKey(s, i, key) && HoldsKey(s, j, key) ==> i == j)
    && (forall key <- s.cells :: s.cells[key].full <==> exists id :: HoldsKey(s, id, key))
  }

  /** A step of one attempt that holds before and after leaves every lock as it was. */
  lemma SameHolders(s: State, s': State)
    requires Exclusive(s) && s'.cells.Keys == s.cells.Keys
    requires forall key <- s.cells :: s'.cells[key].full == s.cells[key].full
    requires forall id <- s'.reqs :: s'.reqs[id].phase != Idle ==> s'.reqs[id].key in s.cells
    requires forall id, key :: HoldsKey(s', id, key) <==> HoldsKey(s, id, key)
    ensures Exclusive(s')
  {
  }

  lemma LockExclusive(s: State, id: nat)
    requires Exclusive(s) && Known(s, id) && s.reqs[id].phase == Queued && !s.cells[s.reqs[id].key].full
    ensures Exclusive(Apply(s, Lock(id)))
  {
    var s', k := Apply(s, Lock(id)), s.reqs[id].key;
    assert HoldsKey(s', id, k);
    forall i, key ensures HoldsKey(s', i, key) <==> HoldsKey(s, i, key) || (i == id && key == k) {
    }
    forall key <- s'.cells ensures s'.cells[key].full <==> exists i :: HoldsKey(s', i, key) {
      if key != k && s.cells[key].full {
        var i :| HoldsKey(s, i, key);
        assert HoldsKey(s', i, key);
      }
    }
  }

  lemma ReleaseExclusive(s: State, id: nat, headers: Headers)
    requires Exclusive(s) && Known(s, id) && Holds(s.reqs[id].phase)
    ensures Exclusive(ReleaseStep(s, id, headers))
  {
    hide Released;
    var s', k := ReleaseStep(s, id, headers), s.reqs[id].key;
    assert HoldsKey(s, id, k);
    forall i, key ensures HoldsKey(s', i, key) <==> HoldsKey(s, i, key) && i != id {
    }
    forall key <- s'.cells ensures s'.cells[key].full <==> exists i :: HoldsKey(s', i, key) {
      if key != k && s.cells[key].full {
        var i :| HoldsKey(s, i, key);
        assert HoldsKey(s', i, key);
      }
    }
  }

  lemma BeginExclusive(s: State, id: nat, key: Key)
    requires Exclusive(s) && (id in s.reqs ==> s.reqs[id].phase == Idle)
    ensures Exclusive(Apply(s, Begin(id, key)))
  {
    hide CustomFor;
    var s' := Apply(s, Begin(id, key));
    forall i, k ensures HoldsKey(s', i, k) <==> HoldsKey(s, i, k) {
    }
    forall k <- s'.cells ensures s'.cells[k].full <==> exists i :: HoldsKey(s', i, k) {
      if k in s.cells && s.cells[k].full {
        var i :| HoldsKey(s, i, k);
        assert HoldsKey(s', i, k);
      }
      assert k !in s.cells ==> forall i :: !HoldsKey(s, i, k);
    }
  }

  lemma ApplyExclusive(s: State, step: Step)
    requires Exclusive(s)
    ensures Exclusive(Apply(s, step))
  {
    hide Released, Until, Take, CustomFor, Exclusive, ReleaseStep;
    match step {
      case Begin(id, key) => if id !in s.reqs || s.reqs[id].phase == Idle { BeginExclusive(s, id, key); }
      case Lock(id) =>
        if Known(s, id) && s.reqs[id].phase == Queued && !s.cells[s.reqs[id].key].full { LockExclusive(s, id); }
      case Release(id, headers) =>
        if Known(s, id) && Holds(s.reqs[id].phase) { ReleaseExclusive(s, id, headers); }
      case _ => HolderStep(s, step);
    }
  }

  lemma HolderStep(s: State, step: Step)
    requires Exclusive(s) && (step.Check? || step.Wake? || step.Send? || step.Pass?)
    ensures Exclusive(Apply(s, step))
  {
    hide Until, Take;
    var s' := Apply(s, step);
    assert forall id, key :: HoldsKey(s', id, key) <==> HoldsKey(s, id, key);
    SameHolders(s, s');
  }

  lemma {:induction false} RunExclusive(limits: seq<(string, nat)>, steps: seq<Step>)
    ensures Exclusive(Run(limits, steps))
  {
    if steps != [] {
      RunExclusive(limits, steps[..|steps| - 1]);
      ApplyExclusive(Run(limits, steps[..|steps| - 1]), steps[|steps| - 1]);
    }
  }

  /** At most one attempt per bucket is between Acquire and Release, and when none is, the lock
      is free. */
  lemma MutualExclusion(limits: seq<(string, nat)>, steps: seq<Step>, key: Key)
    ensures var s := Run(limits, steps);
            && (forall i, j :: HoldsKey(s, i, key) && HoldsKey(s, j, key) ==> i == j)
            && ((forall i :: !HoldsKey(s, i, key)) && key in s.cells ==> !s.cells[key].full)
  {
    RunExclusive(limits, steps);
  }

  /** A Release finds the lock taken by its own attempt and leaves it free: every attempt gives the
      lock back exactly once, whether it was refused, failed by an option, or answered. */
  lemma ReleaseGivesBack(limits: seq<(string, nat)>, steps: seq<Step>, id: nat, headers: Headers)
    requires var s := Run(limits, steps); Known(s, id) && s.reqs[id].phase in {Granted, Sent, Refused}
    ensures var s := Run(limits, steps); var s' := Run(limits, steps + [Release(id, headers)]);
            var key := s.reqs[id].key;
            && s.cells[key].full && key in s'.cells && !s'.cells[key].full
            && (forall i :: !HoldsKey(s', i, key))
            && (forall k <- s.cells | k != key :: k in s'.cells && s'.cells[k].full == s.cells[k].full)
  {
    var s, key := Run(limits, steps), Run(limits, steps).reqs[id].key;
    RunExclusive(limits, steps);
    assert (steps + [Release(id, headers)])[..|steps|] == steps;
    assert HoldsKey(s, id, key);
    ReleaseExclusive(s, id, headers);
  }

  // Custom limits space requests.

  predicate IsSend(e: Event, key: Key) {
    e.SendAt? && e.key == key
  }

  /** The Release of an attempt that was sent. */
  predicate IsAnswer(e: Event, key: Key) {
    e.ReleaseAt? && e.key == key && e.sent
  }

  /** No answer on the bucket before position i. */
  ghost predicate NoAnswer(log: seq<Event>, i: nat, key: Key)
    requires i <= |log|
  {
    forall k :: 0 <= k < i ==> !IsAnswer(log[k], key)
  }

  /** Answer i counts: in a tame run every answer does, in others the bucket's first one does not. */
  ghost predicate Counting(log: seq<Event>, i: nat, key: Key, tame: bool)
    requires i < |log|
  {
    IsAnswer(log[i], key) && (tame || !NoAnswer(log, i, key))
  }

  /** Every send comes at least R after the Release of every earlier send on the bucket. */
  ghost predicate Spaced(log: seq<Event>, key: Key, r: nat, tame: bool) {
    forall i, j :: 0 <= i < j < |log| && Counting(log, i, key, tame) && IsSend(log[j], key) ==> log[i].at + r <= log[j].at
  }

  /** The bucket holds requests back until all answers are R old. */
  ghost predicate AnswersHeld(log: seq<Event>, key: Key, r: nat, b: Bucket, tame: bool) {
    && (b.remaining > 0 ==> NoAnswer(log, |log|, key))
    && forall i :: 0 <= i < |log| && Counting(log, i, key, tame) ==> log[i].at + r <= b.reset
  }

  /** The bucket of a custom limit by itself: one turn, until the first grant, and then the reset time
      is R after the latest reset. In a tame run the first grant comes before any reset. */
  predicate CustomBucket(b: Bucket, r: nat, clock: nat, tame: bool) {
    && b.custom == Some(r) && b.remaining <= 1
    && (tame && b.remaining == 1 ==> b.lastReset.None?)
    && (if b.lastReset.Some? then b.lastReset.value <= clock && b.reset == b.lastReset.value + r else b.reset == 0)
  }

  /** A holder of the lock has waited as long as the bucket demands; `unanswered` excuses it. */
  predicate HolderWaited(p: Phase, b: Bucket, clock: nat, unanswered: bool) {
    match p
    case Waiting(until) => b.remaining > 0 || until >= b.reset || clock >= b.reset
    case Granted => b.remaining == 0 && (b.reset <= clock || unanswered)
    case Sent => b.remaining == 0 && (b.reset <= clock || unanswered)
    case _ => true
  }

  ghost predicate Unanswered(s: State, key: Key, tame: bool) {
    !tame && NoAnswer(s.log, |s.log|, key)
  }

  ghost predicate Spacing(s: State, key: Key, r: nat, tame: bool) {
    && CustomFor(s.limits, key) == Some(r)
    && Spaced(s.log, key, r, tame)
    && (if key in s.cells then
          && CustomBucket(s.cells[key].b, r, s.clock, tame)
          && AnswersHeld(s.log, key, r, s.cells[key].b, tame)
          && (forall id :: HoldsKey(s, id, key)
                           ==> HolderWaited(s.reqs[id].phase, s.cells[key].b, s.clock, Unanswered(s, key, tame)))
        else
          NoAnswer(s.log, |s.log|, key))
  }

  /** No refusal is released while the bucket still has its first turn. */
  predicate Tame(s: State, step: Step, key: Key) {
    step.Release? && HoldsKey(s, step.id, key) && s.reqs[step.id].phase == Refused && key in s.cells
    ==> s.cells[key].b.remaining == 0
  }

  predicate TameRun(limits: seq<(string, nat)>, steps: seq<Step>, key: Key) {
    steps == []
    || (&& TameRun(limits, steps[..|steps| - 1], key)
        && Tame(Run(limits, steps[..|steps| - 1]), steps[|steps| - 1], key))
  }

  /** Deciding and taking a turn. */
  lemma GrantSpacing(b: Bucket, r: nat, global: int, clock: nat, tame: bool, unanswered: bool)
    requires CustomBucket(b, r, clock, tame)
    requires b.remaining > 0 && !tame ==> unanswered
    ensures CustomBucket(Take(b), r, clock, tame)
    ensures Until(b, global, clock) <= clock ==> HolderWaited(Granted, Take(b), clock, unanswered)
    ensures HolderWaited(Waiting(Until(b, global, clock)), b, clock, unanswered)
    ensures forall until :: HolderWaited(Waiting(until), b, clock, unanswered) && clock >= until
                            ==> HolderWaited(Granted, Take(b), clock, unanswered)
  {
  }

  /** The other holders of a bucket are where they were. */
  lemma Elsewhere(s: State, s': State, id: nat, key: Key)
    requires id in s.reqs && s'.reqs.Keys == s.reqs.Keys && s'.reqs[id].key == s.reqs[id].key
    requires forall i <- s.reqs | i != id :: s'.reqs[i] == s.reqs[i]
    ensures forall i | i != id || s.reqs[id].key != key ::
              HoldsKey(s', i, key) ==> HoldsKey(s, i, key) && s'.reqs[i] == s.reqs[i]
  {
  }

  lemma CheckKeepsSpacing(s: State, id: nat, dontWait: bool, deadline: Option<int>, key: Key, r: nat, tame: bool)
    requires Exclusive(s) && Spacing(s, key, r, tame) && Known(s, id) && s.reqs[id].phase == Locked
    ensures Spacing(CheckStep(s, id, dontWait, deadline), key, r, tame)
  {
    hide Exclusive, Spaced, NoAnswer, Counting;
    Elsewhere(s, CheckStep(s, id, dontWait, deadline), id, key);
    if s.reqs[id].key == key {
      GrantSpacing(s.cells[key].b, r, s.global, s.clock, tame, Unanswered(s, key, tame));
      OnlyHolder(s, id, key);
    }
  }

  lemma OnlyHolder(s: State, id: nat, key: Key)
    requires Exclusive(s) && HoldsKey(s, id, key)
    ensures forall i :: HoldsKey(s, i, key) ==> i == id
  {
  }

  lemma WakeKeepsSpacing(s: State, id: nat, key: Key, r: nat, tame: bool)
    requires Exclusive(s) && Spacing(s, key, r, tame) && Known(s, id)
    requires s.reqs[id].phase.Waiting? && s.clock >= s.reqs[id].phase.until
    ensures Spacing(Grant(s, id), key, r, tame)
  {
    hide Exclusive, Spaced, NoAnswer, Counting;
    Elsewhere(s, Grant(s, id), id, key);
    if s.reqs[id].key == key {
      assert HoldsKey(s, id, key);
      GrantSpacing(s.cells[key].b, r, s.global, s.clock, tame, Unanswered(s, key, tame));
      OnlyHolder(s, id, key);
    }
  }

  /** What an event more does to the log. */
  lemma LogGrows(log: seq<Event>, e: Event, key: Key, tame: bool)
    ensures var log' := log + [e];
            && (NoAnswer(log', |log'|, key) <==> NoAnswer(log, |log|, key) && !IsAnswer(e, key))
            && (forall i :: 0 <= i < |log| ==> (Counting(log', i, key, tame) <==> Counting(log, i, key, tame)))
            && (Counting(log', |log|, key, tame) <==> IsAnswer(e, key) && (tame || !NoAnswer(log, |log|, key)))
  {
    var log' := log + [e];
    forall i | 0 <= i <= |log| ensures NoAnswer(log', i, key) <==> NoAnswer(log, i, key) {
      assert forall k :: 0 <= k < i ==> log'[k] == log[k];
    }
    assert log'[|log|] == e;
  }

  lemma SpacedGrows(log: seq<Event>, e: Event, key: Key, r: nat, tame: bool)
    requires Spaced(log, key, r, tame)
    requires IsSend(e, key) ==> forall i :: 0 <= i < |log| && Counting(log, i, key, tame) ==> log[i].at + r <= e.at
    ensures Spaced(log + [e], key, r, tame)
  {
    hide Counting;
    LogGrows(log, e, key, tame);
  }

  lemma SendKeepsSpacing(s: State, id: nat, key: Key, r: nat, tame: bool)
    requires Exclusive(s) && Spacing(s, key, r, tame) && Known(s, id) && s.reqs[id].phase == Granted
    ensures Spacing(Apply(s, Send(id)), key, r, tame)
  {
    hide Exclusive, Spaced, CustomFor, CustomBucket;
    var e := SendAt(s.reqs[id].key, s.clock);
    LogGrows(s.log, e, key, tame);
    if s.reqs[id].key == key {
      assert HoldsKey(s, id, key);
      OnlyHolder(s, id, key);
    }
    SpacedGrows(s.log, e, key, r, tame);
  }

  /** What a Release does to a custom bucket. */
  lemma ReleaseSpacing(b: Bucket, r: nat, global: int, h: Headers, clock: nat, tame: bool)
    requires CustomBucket(b, r, clock, tame) && (tame ==> b.remaining == 0)
    ensures var b' := Released(b, global, h, clock).0;
            && CustomBucket(b', r, clock, tame) && b'.remaining == b.remaining && b'.reset >= b.reset
            && (b.reset <= clock ==> b'.reset == clock + r)
  {
  }

  /** The events of a Release: the log stays spaced, and counts one answer more if it was one. */
  lemma ReleaseLog(log: seq<Event>, answer: Event, budget: seq<Event>, key: Key, r: nat, tame: bool)
    requires Spaced(log, key, r, tame) && answer.ReleaseAt?
    requires budget == [] || (|budget| == 1 && budget[0].Budget?)
    ensures var log' := log + [answer] + budget;
            && Spaced(log', key, r, tame)
            && (NoAnswer(log', |log'|, key) <==> NoAnswer(log, |log|, key) && !IsAnswer(answer, key))
            && forall i :: 0 <= i < |log'| && Counting(log', i, key, tame) ==>
                 || (i < |log| && log'[i] == log[i] && Counting(log, i, key, tame))
                 || (log'[i] == answer && IsAnswer(answer, key) && (tame || !NoAnswer(log, |log|, key)))
  {
    hide Spaced, NoAnswer, Counting;
    LogGrows(log, answer, key, tame);
    SpacedGrows(log, answer, key, r, tame);
    if budget == [] {
      assert log + [answer] + budget == log + [answer];
    } else {
      LogGrows(log + [answer], budget[0], key, tame);
      SpacedGrows(log + [answer], budget[0], key, r, tame);
      assert log + [answer] + budget == log + [answer] + [budget[0]];
    }
  }

  lemma ReleaseKeepsSpacing(s: State, id: nat, headers: Headers, key: Key, r: nat, tame: bool)
    requires Exclusive(s) && Spacing(s, key, r, tame) && Known(s, id) && s.reqs[id].phase in {Granted, Sent, Refused}
    requires tame ==> Tame(s, Release(id, headers), key)
    ensures Spacing(ReleaseStep(s, id, headers), key, r, tame)
  {
    hide Exclusive, Released, Spaced, CustomFor, CustomBucket, NoAnswer, Counting;
    var s', k, sent := ReleaseStep(s, id, headers), s.reqs[id].key, s.reqs[id].phase.Sent?;
    var answer := ReleaseAt(k, s.clock, sent);
    ReleaseLog(s.log, answer, s'.log[|s.log| + 1..], key, r, tame);
    assert s'.log == s.log + [answer] + s'.log[|s.log| + 1..];
    assert HoldsKey(s, id, k);
    OnlyHolder(s, id, k);
    assert forall i :: HoldsKey(s', i, key) ==> HoldsKey(s, i, key) && i != id;
    if k == key {
      ReleaseSpacing(s.cells[key].b, r, s.global, if sent then headers else NoHeaders, s.clock, tame);
    }
  }

  lemma ApplyKeepsSpacing(s: State, step: Step, key: Key, r: nat, tame: bool)
    requires Exclusive(s) && Spacing(s, key, r, tame) && (tame ==> Tame(s, step, key))
    ensures Spacing(Apply(s, step), key, r, tame)
  {
    hide Exclusive, Spaced, NoAnswer, Counting;
    match step {
      case Check(id, dontWait, deadline) =>
        if Known(s, id) && s.reqs[id].phase == Locked { CheckKeepsSpacing(s, id, dontWait, deadline, key, r, tame); }
      case Wake(id) =>
        if Known(s, id) && s.reqs[id].phase.Waiting? && s.clock >= s.reqs[id].phase.until {
          WakeKeepsSpacing(s, id, key, r, tame);
        }
      case Send(id) => if Known(s, id) && s.reqs[id].phase == Granted { SendKeepsSpacing(s, id, key, r, tame); }
      case Release(id, headers) =>
        if Known(s, id) && s.reqs[id].phase in {Granted, Sent, Refused} {
          ReleaseKeepsSpacing(s, id, headers, key, r, tame);
        }
      case _ => OtherKeepsSpacing(s, step, key, r, tame);
    }
  }

  lemma OtherKeepsSpacing(s: State, step: Step, key: Key, r: nat, tame: bool)
    requires Exclusive(s) && Spacing(s, key, r, tame) && (step.Begin? || step.Lock? || step.Pass?)
    ensures Spacing(Apply(s, step), key, r, tame)
  {
    hide CustomFor, Spaced, Counting;
    assert key !in s.cells ==> forall i :: !HoldsKey(s, i, key);
    if step.Begin? && key !in s.cells {
      NothingCounts(s.log, key, tame);
    }
  }

  lemma NothingCounts(log: seq<Event>, key: Key, tame: bool)
    requires NoAnswer(log, |log|, key)
    ensures forall i :: 0 <= i < |log| ==> !Counting(log, i, key, tame)
  {
  }

  lemma {:induction false} RunKeepsSpacing(limits: seq<(string, nat)>, steps: seq<Step>, key: Key, r: nat, tame: bool)
    requires CustomFor(limits, key) == Some(r) && (tame ==> TameRun(limits, steps, key))
    ensures Spacing(Run(limits, steps), key, r, tame)
  {
    if steps != [] {
      var before := steps[..|steps| - 1];
      RunKeepsSpacing(limits, before, key, r, tame);
      RunExclusive(limits, before);
      ApplyKeepsSpacing(Run(limits, before), steps[|steps| - 1], key, r, tame);
    }
  }

  /** Each send on a bucket comes at least R after the Release of every earlier one. */
  ghost predicate AllSpaced(log: seq<Event>, key: Key, r: nat) {
    forall i, j :: 0 <= i < j < |log| && IsAnswer(log[i], key) && IsSend(log[j], key) ==> log[i].at + r <= log[j].at
  }

  /** Custom limits space requests: in every run in which no refusal is released before the bucket's
      first grant, each send comes at least R after the Release of every earlier one. */
  lemma CustomLimitSpaces(limits: seq<(string, nat)>, steps: seq<Step>, key: Key, r: nat)
    requires CustomFor(limits, key) == Some(r) && TameRun(limits, steps, key)
    ensures AllSpaced(Run(limits, steps).log, key, r)
  {
    RunKeepsSpacing(limits, steps, key, r, true);
    var log := Run(limits, steps).log;
    assert forall i :: 0 <= i < |log| && IsAnswer(log[i], key) ==> Counting(log, i, key, true);
  }

  /** In every run, tame or not, the same holds but for the first answer on the bucket: an early
      refusal costs at most that one pause. */
  lemma CustomLimitSpacesTheRest(limits: seq<(string, nat)>, steps: seq<Step>, key: Key, r: nat)
    requires CustomFor(limits, key) == Some(r)
    ensures var log := Run(limits, steps).log;
            forall first, i, j :: 0 <= first < i < j < |log|
                                  && IsAnswer(log[first], key) && IsAnswer(log[i], key) && IsSend(log[j], key)
                                  ==> log[i].at + r <= log[j].at
  {
    RunKeepsSpacing(limits, steps, key, r, false);
    var log := Run(limits, steps).log;
    forall first, i, j | 0 <= first < i < j < |log|
                         && IsAnswer(log[first], key) && IsAnswer(log[i], key) && IsSend(log[j], key)
      ensures log[i].at + r <= log[j].at
    {
      assert Counting(log, i, key, false);
    }
  }

  // How an early refusal breaks the spacing.

  lemma OneMoreStep(limits: seq<(string, nat)>, steps: seq<Step>, step: Step)
    ensures Run(limits, steps + [step]) == Apply(Run(limits, steps), step)
  {
    assert (steps + [step])[..|steps|] == steps;
  }

  function BucketOf(s: State, key: Key): Bucket {
    if key in s.cells then s.cells[key].b else NewBucket(CustomFor(s.limits, key))
  }

  predicate Free(s: State, key: Key) {
    key in s.cells ==> !s.cells[key].full
  }

  function Attempt(id: nat, key: Key): seq<Step> {
    [Begin(id, key), Lock(id), Check(id, false, None), Send(id)]
  }

  function Refusal(id: nat, key: Key): seq<Step> {
    [Begin(id, key), Lock(id), Check(id, true, None)]
  }

  predicate Unused(s: State, id: nat) {
    id in s.reqs ==> s.reqs[id].phase == Idle
  }

  /** A new request on a free bucket takes the lock. */
  lemma Starts(limits: seq<(string, nat)>, steps: seq<Step>, id: nat, key: Key)
    requires var s := Run(limits, steps); Unused(s, id) && Free(s, key)
    ensures var s := Run(limits, steps);
            Run(limits, steps + [Begin(id, key)] + [Lock(id)])
            == s.(reqs := s.reqs[id := Request(key, Locked)], cells := s.cells[key := Cell(true, BucketOf(s, key))])
  {
    hide Run, CustomFor;
    var s := Run(limits, steps);
    OneMoreStep(limits, steps, Begin(id, key));
    OneMoreStep(limits, steps + [Begin(id, key)], Lock(id));
    var s' := Run(limits, steps + [Begin(id, key)] + [Lock(id)]);
    assert s'.reqs == s.reqs[id := Request(key, Locked)];
    assert s'.cells == s.cells[key := Cell(true, BucketOf(s, key))];
  }

  /** One whose time has come is sent at once. */
  lemma Goes(limits: seq<(string, nat)>, steps: seq<Step>, id: nat, key: Key)
    requires var s := Run(limits, steps);
             Unused(s, id) && Free(s, key) && Until(BucketOf(s, key), s.global, s.clock) <= s.clock
    ensures var s := Run(limits, steps);
            Run(limits, steps + Attempt(id, key))
            == s.(reqs := s.reqs[id := Request(key, Sent)],
                  cells := s.cells[key := Cell(true, Take(BucketOf(s, key)))],
                  log := s.log + [SendAt(key, s.clock)])
  {
    hide Run, CustomFor, BucketOf;
    var s, locked := Run(limits, steps), steps + [Begin(id, key)] + [Lock(id)];
    Starts(limits, steps, id, key);
    OneMoreStep(limits, locked, Check(id, false, None));
    OneMoreStep(limits, locked + [Check(id, false, None)], Send(id));
    assert locked + [Check(id, false, None)] + [Send(id)] == steps + Attempt(id, key);
    var s' := Run(limits, steps + Attempt(id, key));
    assert s'.reqs == s.reqs[id := Request(key, Sent)];
    assert s'.cells == s.cells[key := Cell(true, Take(BucketOf(s, key)))];
  }

  /** One whose time has not come and that does not wait is refused. */
  lemma IsRefused(limits: seq<(string, nat)>, steps: seq<Step>, id: nat, key: Key)
    requires var s := Run(limits, steps);
             Unused(s, id) && Free(s, key) && Until(BucketOf(s, key), s.global, s.clock) > s.clock
    ensures var s := Run(limits, steps);
            Run(limits, steps + Refusal(id, key))
            == s.(reqs := s.reqs[id := Request(key, Refused)], cells := s.cells[key := Cell(true, BucketOf(s, key))])
  {
    hide Run, CustomFor, BucketOf;
    var s, locked := Run(limits, steps), steps + [Begin(id, key)] + [Lock(id)];
    Starts(limits, steps, id, key);
    OneMoreStep(limits, locked, Check(id, true, None));
    assert locked + [Check(id, true, None)] == steps + Refusal(id, key);
    var s' := Run(limits, steps + Refusal(id, key));
    assert s'.reqs == s.reqs[id := Request(key, Refused)];
  }

  /** It is released after some time. */
  lemma Ends(limits: seq<(string, nat)>, steps: seq<Step>, time: nat, id: nat, headers: Headers)
    requires var s := Run(limits, steps); Known(s, id) && s.reqs[id].phase in {Granted, Sent, Refused}
    ensures var s := Run(limits, steps);
            Run(limits, steps + [Pass(time), Release(id, headers)])
            == ReleaseStep(s.(clock := s.clock + time), id, headers)
  {
    hide Run, ReleaseStep;
    OneMoreStep(limits, steps, Pass(time));
    OneMoreStep(limits, steps + [Pass(time)], Release(id, headers));
    assert steps + [Pass(time)] + [Release(id, headers)] == steps + [Pass(time), Release(id, headers)];
  }

  const SLOW: Key := "slow"
  const OTHER: Key := "b"
  const TENTH: nat := 100_000_000

  function SlowLimits(): seq<(string, nat)> {
    [(SLOW, 2 * SECOND)]
  }

  /** Another bucket meets a global limit of one second. */
  function GlobalAtZero(): seq<Step> {
    [] + Attempt(0, OTHER) + [Pass(0), Release(0, Headers(true, Given(1), Absent, Absent))]
  }

  /** A request that does not wait is refused and released at 0.1 s. */
  function RefusedEarly(): seq<Step> {
    GlobalAtZero() + Refusal(1, SLOW) + [Pass(TENTH), Release(1, NoHeaders)]
  }

  /** The first request goes at 1 s and is answered at 1.2 s. */
  function FirstAnswer(): seq<Step> {
    RefusedEarly() + [Pass(9 * TENTH)] + Attempt(2, SLOW) + [Pass(2 * TENTH), Release(2, NoHeaders)]
  }

  /** The second one goes at 2.1 s. */
  function EarlyRefusal(): seq<Step> {
    FirstAnswer() + [Pass(9 * TENTH)] + Attempt(3, SLOW)
  }

  lemma SlowIsLimited()
    ensures CustomFor(SlowLimits(), SLOW) == Some(2 * SECOND) && CustomFor(SlowLimits(), OTHER) == None
  {
    assert SLOW == SLOW[..|SLOW|];
    assert CustomFor([], OTHER) == None;
  }

  lemma NothingRun(limits: seq<(string, nat)>)
    ensures Run(limits, []) == Init(limits)
  {
  }

  lemma AtZero()
    ensures var s := Run(SlowLimits(), GlobalAtZero());
            && s.clock == 0 && s.global == SECOND && s.limits == SlowLimits()
            && s.reqs.Keys == {0} && s.cells.Keys == {OTHER}
  {
    hide Run, CustomFor, Attempt;
    SlowIsLimited();
    NothingRun(SlowLimits());
    Goes(SlowLimits(), [], 0, OTHER);
    Ends(SlowLimits(), [] + Attempt(0, OTHER), 0, 0, Headers(true, Given(1), Absent, Absent));
  }

  lemma AfterRefusal()
    ensures var s := Run(SlowLimits(), RefusedEarly());
            && s.clock == TENTH && s.global == SECOND && s.limits == SlowLimits() && s.reqs.Keys == {0, 1}
            && SLOW in s.cells && s.cells[SLOW] == Cell(false, Bucket(Some(2 * SECOND), 1, 21 * TENTH, Some(TENTH)))
  {
    hide Run, CustomFor, GlobalAtZero;
    AtZero();
    SlowIsLimited();
    IsRefused(SlowLimits(), GlobalAtZero(), 1, SLOW);
    Ends(SlowLimits(), GlobalAtZero() + Refusal(1, SLOW), TENTH, 1, NoHeaders);
  }

  lemma AfterAnswer()
    ensures var s := Run(SlowLimits(), FirstAnswer());
            && s.clock == 12 * TENTH && s.global == SECOND && s.limits == SlowLimits() && s.reqs.Keys == {0, 1, 2}
            && SLOW in s.cells && s.cells[SLOW] == Cell(false, Bucket(Some(2 * SECOND), 0, 21 * TENTH, Some(TENTH)))
            && s.log != [] && s.log[|s.log| - 1] == ReleaseAt(SLOW, 12 * TENTH, true)
  {
    hide Run, CustomFor, RefusedEarly, Attempt;
    var early := RefusedEarly() + [Pass(9 * TENTH)];
    AfterRefusal();
    OneMoreStep(SlowLimits(), RefusedEarly(), Pass(9 * TENTH));
    Goes(SlowLimits(), early, 2, SLOW);
    Ends(SlowLimits(), early + Attempt(2, SLOW), 2 * TENTH, 2, NoHeaders);
  }

  /** A run in which a refusal is released before the first grant: its Release starts the clock of the custom
      limit, that of the first answer does not restart it, and the next request goes 0.9 s later, not 2 s. */
  lemma EarlyRefusalBreaksSpacing()
    ensures CustomFor(SlowLimits(), SLOW) == Some(2 * SECOND)
    ensures !AllSpaced(Run(SlowLimits(), EarlyRefusal()).log, SLOW, 2 * SECOND)
  {
    hide Run, CustomFor, FirstAnswer, Attempt;
    SlowIsLimited();
    AfterAnswer();
    var before := Run(SlowLimits(), FirstAnswer()).log;
    OneMoreStep(SlowLimits(), FirstAnswer(), Pass(9 * TENTH));
    Goes(SlowLimits(), FirstAnswer() + [Pass(9 * TENTH)], 3, SLOW);
    var log := Run(SlowLimits(), EarlyRefusal()).log;
    assert log == before + [SendAt(SLOW, 21 * TENTH)];
    assert IsAnswer(log[|before| - 1], SLOW) && IsSend(log[|before|], SLOW);
  }

  // The budget that a Release leaves is kept.

  predicate IsBudget(e: Event, key: Key) {
    e.Budget? && e.key == key
  }

  /** No Release changes the bucket's budget from position n of the log on. */
  ghost predicate SameBudget(log: seq<Event>, n: nat, key: Key) {
    n <= |log| && forall k :: n <= k < |log| ==> !IsBudget(log[k], key)
  }

  /** The requests sent on a bucket before a point in time. */
  function SendsBefore(log: seq<Event>, key: Key, reset: int): nat {
    if log == [] then 0
    else SendsBefore(log[..|log| - 1], key, reset)
         + (if IsSend(log[|log| - 1], key) && log[|log| - 1].at < reset then 1 else 0)
  }

  /** The same from position n of the log on. */
  function SendsSince(log: seq<Event>, n: nat, key: Key, reset: int): nat {
    if n <= |log| then SendsBefore(log[n..], key, reset) else 0
  }

  lemma OneMoreEvent(log: seq<Event>, e: Event, n: nat, key: Key, reset: int)
    requires n <= |log|
    ensures SendsSince(log + [e], n, key, reset)
            == SendsSince(log, n, key, reset) + (if IsSend(e, key) && e.at < reset then 1 else 0)
    ensures SameBudget(log + [e], n, key) <==> SameBudget(log, n, key) && !IsBudget(e, key)
  {
    var more := log[n..] + [e];
    assert (log + [e])[n..] == more && more[..|more| - 1] == log[n..];
    assert forall k :: n <= k < |log| ==> (log + [e])[k] == log[k];
    assert (log + [e])[|log|] == e;
  }

  /** A granted attempt has its turn still to spend, unless the reset time has come. */
  predicate HolderBudget(p: Phase, b: Bucket, sent: nat, allowed: nat, clock: nat) {
    match p
    case Waiting(until) => b.remaining > 0 || until >= b.reset || clock >= b.reset
    case Granted => clock >= b.reset || sent + b.remaining + 1 <= allowed
    case _ => true
  }

  /** What was sent since position n, and what is left, is within the budget. */
  ghost predicate InBudget(s: State, n: nat, key: Key, allowed: nat, reset: int) {
    var sent := SendsSince(s.log, n, key, reset);
    && key in s.cells && s.cells[key].b.reset == reset && sent + s.cells[key].b.remaining <= allowed
    && forall id :: HoldsKey(s, id, key) ==> HolderBudget(s.reqs[id].phase, s.cells[key].b, sent, allowed, s.clock)
  }

  lemma CheckKeepsBudget(s: State, id: nat, dontWait: bool, deadline: Option<int>,
                         n: nat, key: Key, allowed: nat, reset: int)
    requires Exclusive(s) && InBudget(s, n, key, allowed, reset) && Known(s, id) && s.reqs[id].phase == Locked
    ensures InBudget(CheckStep(s, id, dontWait, deadline), n, key, allowed, reset)
  {
    hide Exclusive, SendsSince;
    Elsewhere(s, CheckStep(s, id, dontWait, deadline), id, key);
    if s.reqs[id].key == key {
      assert HoldsKey(s, id, key);
      OnlyHolder(s, id, key);
    }
  }

  lemma WakeKeepsBudget(s: State, id: nat, n: nat, key: Key, allowed: nat, reset: int)
    requires Exclusive(s) && InBudget(s, n, key, allowed, reset) && Known(s, id)
    requires s.reqs[id].phase.Waiting? && s.clock >= s.reqs[id].phase.until
    ensures InBudget(Grant(s, id), n, key, allowed, reset)
  {
    hide Exclusive, SendsSince;
    Elsewhere(s, Grant(s, id), id, key);
    if s.reqs[id].key == key {
      assert HoldsKey(s, id, key);
      OnlyHolder(s, id, key);
    }
  }

  lemma SendKeepsBudget(s: State, id: nat, n: nat, key: Key, allowed: nat, reset: int)
    requires Exclusive(s) && InBudget(s, n, key, allowed, reset) && n <= |s.log|
    requires Known(s, id) && s.reqs[id].phase == Granted
    ensures InBudget(Apply(s, Send(id)), n, key, allowed, reset)
  {
    hide Exclusive, SendsSince, SameBudget;
    OneMoreEvent(s.log, SendAt(s.reqs[id].key, s.clock), n, key, reset);
    Elsewhere(s, Apply(s, Send(id)), id, key);
    if s.reqs[id].key == key {
      assert HoldsKey(s, id, key);
      OnlyHolder(s, id, key);
    }
  }

  lemma ReleaseKeepsBudget(s: State, id: nat, headers: Headers, n: nat, key: Key, allowed: nat, reset: int)
    requires Exclusive(s) && InBudget(s, n, key, allowed, reset) && n <= |s.log|
    requires Known(s, id) && s.reqs[id].phase in {Granted, Sent, Refused}
    requires SameBudget(ReleaseStep(s, id, headers).log, n, key)
    ensures InBudget(ReleaseStep(s, id, headers), n, key, allowed, reset)
  {
    hide Exclusive, Released, SendsSince, SameBudget;
    var s', k := ReleaseStep(s, id, headers), s.reqs[id].key;
    var answer := ReleaseAt(k, s.clock, s.reqs[id].phase.Sent?);
    var budget := Budget(k, s'.cells[k].b.remaining, s'.cells[k].b.reset);
    OneMoreEvent(s.log, answer, n, key, reset);
    OneMoreEvent(s.log + [answer], budget, n, key, reset);
    assert s'.log == s.log + [answer] || s'.log == s.log + [answer] + [budget];
    assert HoldsKey(s, id, k);
    OnlyHolder(s, id, k);
    assert forall i :: HoldsKey(s', i, key) ==> HoldsKey(s, i, key) && i != id;
  }

  lemma OtherKeepsBudget(s: State, step: Step, n: nat, key: Key, allowed: nat, reset: int)
    requires InBudget(s, n, key, allowed, reset) && (step.Begin? || step.Lock? || step.Pass?)
    ensures InBudget(Apply(s, step), n, key, allowed, reset)
  {
    hide CustomFor, SendsSince;
  }

  lemma ApplyKeepsBudget(s: State, step: Step, n: nat, key: Key, allowed: nat, reset: int)
    requires Exclusive(s) && InBudget(s, n, key, allowed, reset) && n <= |s.log|
    requires SameBudget(Apply(s, step).log, n, key)
    ensures InBudget(Apply(s, step), n, key, allowed, reset)
  {
    hide Exclusive, SendsSince, SameBudget, InBudget;
    match step {
      case Check(id, dontWait, deadline) =>
        if Known(s, id) && s.reqs[id].phase == Locked {
          CheckKeepsBudget(s, id, dontWait, deadline, n, key, allowed, reset);
        }
      case Wake(id) =>
        if Known(s, id) && s.reqs[id].phase.Waiting? && s.clock >= s.reqs[id].phase.until {
          WakeKeepsBudget(s, id, n, key, allowed, reset);
        }
      case Send(id) =>
        if Known(s, id) && s.reqs[id].phase == Granted { SendKeepsBudget(s, id, n, key, allowed, reset); }
      case Release(id, headers) =>
        if Known(s, id) && s.reqs[id].phase in {Granted, Sent, Refused} {
          ReleaseKeepsBudget(s, id, headers, n, key, allowed, reset);
        }
      case _ => OtherKeepsBudget(s, step, n, key, allowed, reset);
    }
  }

  lemma LogOnlyGrows(s: State, step: Step)
    ensures s.log <= Apply(s, step).log
  {
    hide Released, CustomFor;
  }

  /** As long as no Release changes it, the budget is kept, whatever happens. */
  lemma {:induction false} BudgetLasts(limits: seq<(string, nat)>, a: seq<Step>, b: seq<Step>,
                                       n: nat, key: Key, allowed: nat, reset: int)
    requires n <= |Run(limits, a).log| && InBudget(Run(limits, a), n, key, allowed, reset)
    requires SameBudget(Run(limits, a + b).log, n, key)
    ensures InBudget(Run(limits, a + b), n, key, allowed, reset)
    ensures Run(limits, a).log <= Run(limits, a + b).log
  {
    hide InBudget, Run;
    if b == [] {
      assert a + b == a;
    } else {
      var before, step := b[..|b| - 1], b[|b| - 1];
      assert a + b == a + before + [step];
      OneMoreStep(limits, a + before, step);
      var s := Run(limits, a + before);
      LogOnlyGrows(s, step);
      LogsGrow(limits, a, before);
      BudgetLasts(limits, a, before, n, key, allowed, reset);
      RunExclusive(limits, a + before);
      ApplyKeepsBudget(s, step, n, key, allowed, reset);
    }
  }

  lemma {:induction false} LogsGrow(limits: seq<(string, nat)>, a: seq<Step>, b: seq<Step>)
    ensures Run(limits, a).log <= Run(limits, a + b).log
  {
    hide Run, Apply;
    if b == [] {
      assert a + b == a;
    } else {
      var before, step := b[..|b| - 1], b[|b| - 1];
      assert a + b == a + before + [step];
      LogsGrow(limits, a, before);
      OneMoreStep(limits, a + before, step);
      LogOnlyGrows(Run(limits, a + before), step);
    }
  }

  /**
   Header budget: after any Release, at most as many requests are sent on its bucket before the bucket's
   reset time as the bucket then has left, until the next Release that changes what is left or the reset time.
   */
  lemma BudgetIsKept(limits: seq<(string, nat)>, a: seq<Step>, id: nat, headers: Headers, b: seq<Step>)
    requires var s := Run(limits, a); Known(s, id) && s.reqs[id].phase in {Granted, Sent, Refused}
    requires var s' := Run(limits, a + [Release(id, headers)]);
             SameBudget(Run(limits, a + [Release(id, headers)] + b).log, |s'.log|, Run(limits, a).reqs[id].key)
    ensures var key := Run(limits, a).reqs[id].key; var s' := Run(limits, a + [Release(id, headers)]);
            var log := Run(limits, a + [Release(id, headers)] + b).log;
            && key in s'.cells && s'.log <= log
            && SendsBefore(log[|s'.log|..], key, s'.cells[key].b.reset) <= s'.cells[key].b.remaining
  {
    hide Run, Released, SameBudget;
    var released := a + [Release(id, headers)];
    var s, s' := Run(limits, a), Run(limits, released);
    var key := s.reqs[id].key;
    ReleaseGivesBack(limits, a, id, headers);
    assert s'.log[|s'.log|..] == [];
    LogsGrow(limits, released, b);
    BudgetLasts(limits, released, b, |s'.log|, key, s'.cells[key].b.remaining, s'.cells[key].b.reset);
  }

  /** So after a response that reports u requests left until t, at most u are sent before t and the extra
      delay, until a Release changes that; whether the report was news does not matter. */
  lemma ReportedBudgetIsKept(limits: seq<(string, nat)>, a: seq<Step>, id: nat, headers: Headers, b: seq<Step>,
                             u: nat, t: int)
    requires headers.Headers? && headers.retryAfter.Absent? && headers.reset == Given(t) && headers.remaining == Given(u)
    requires var s := Run(limits, a);
             Known(s, id) && s.reqs[id].phase == Sent && s.cells[s.reqs[id].key].b.custom.None?
    requires var s' := Run(limits, a + [Release(id, headers)]);
             SameBudget(Run(limits, a + [Release(id, headers)] + b).log, |s'.log|, Run(limits, a).reqs[id].key)
    ensures var key := Run(limits, a).reqs[id].key; var s' := Run(limits, a + [Release(id, headers)]);
            var log := Run(limits, a + [Release(id, headers)] + b).log;
            s'.log <= log && SendsBefore(log[|s'.log|..], key, t + 250_000_000) <= u
  {
    hide Run, SameBudget;
    BudgetIsKept(limits, a, id, headers, b);
    OneMoreStep(limits, a, Release(id, headers));
  }

  /** After a response that asks for a retry on its own bucket after i seconds and leaves u requests, at most u are
      sent there before those i seconds are over, until a Release changes that; with none left, nothing is. The
      global limit stays as it is. */
  lemma OwnRetryIsKept(limits: seq<(string, nat)>, a: seq<Step>, id: nat, headers: Headers, b: seq<Step>,
                       u: nat, i: int)
    requires headers.Headers? && !headers.global && headers.retryAfter == Given(i) && headers.remaining == Given(u)
    requires var s := Run(limits, a);
             Known(s, id) && s.reqs[id].phase == Sent && s.cells[s.reqs[id].key].b.custom.None?
    requires var s' := Run(limits, a + [Release(id, headers)]);
             SameBudget(Run(limits, a + [Release(id, headers)] + b).log, |s'.log|, Run(limits, a).reqs[id].key)
    ensures var s, s' := Run(limits, a), Run(limits, a + [Release(id, headers)]);
            var log := Run(limits, a + [Release(id, headers)] + b).log;
            && s'.log <= log && s'.global == s.global
            && SendsBefore(log[|s'.log|..], s.reqs[id].key, s.clock + i * 1_000_000_000) <= u
  {
    hide Run, SameBudget;
    BudgetIsKept(limits, a, id, headers, b);
    OneMoreStep(limits, a, Release(id, headers));
  }

  // The global limit.

  /** The global limit is moved by an answer with a global Retry-After on a bucket without a custom limit, to that
      many seconds from then on, and by nothing else. */
  lemma GlobalLimitIsMoved(limits: seq<(string, nat)>, a: seq<Step>, step: Step)
    ensures var s, s' := Run(limits, a), Run(limits, a + [step]);
            s'.global == if && step.Release? && Known(s, step.id) && s.reqs[step.id].phase == Sent
                            && s.cells[s.reqs[step.id].key].b.custom.None?
                            && step.headers.Headers? && step.headers.global && step.headers.retryAfter.Given?
                         then s.clock + step.headers.retryAfter.value * 1_000_000_000 else s.global
  {
    hide Run, CustomFor, Until;
    OneMoreStep(limits, a, step);
  }

  /** The attempt has been checked, and passes no earlier than `until`. */
  predicate HeldUntil(s: State, id: nat, until: int) {
    id in s.reqs
    && match s.reqs[id].phase
       case Waiting(u) => u == until
       case Granted => s.clock >= until
       case Sent => s.clock >= until
       case Refused => true
       case _ => false
  }

  predicate NoRelease(steps: seq<Step>, id: nat) {
    forall i :: 0 <= i < |steps| ==> !(steps[i].Release? && steps[i].id == id)
  }

  lemma ApplyHolds(s: State, step: Step, id: nat, until: int)
    requires HeldUntil(s, id, until) && !(step.Release? && step.id == id)
    ensures HeldUntil(Apply(s, step), id, until)
  {
    hide Released, CustomFor, Until, Take;
  }

  lemma {:induction false} RunHolds(limits: seq<(string, nat)>, a: seq<Step>, b: seq<Step>, id: nat, until: int)
    requires HeldUntil(Run(limits, a), id, until) && NoRelease(b, id)
    ensures HeldUntil(Run(limits, a + b), id, until)
  {
    hide Run, HeldUntil;
    if b == [] {
      assert a + b == a;
    } else {
      var before, step := b[..|b| - 1], b[|b| - 1];
      assert a + b == a + before + [step];
      RunHolds(limits, a, before, id, until);
      OneMoreStep(limits, a + before, step);
      ApplyHolds(Run(limits, a + before), step, id, until);
    }
  }

  /** In every run an attempt that Acquire looks at while the global limit is g is sent no earlier than g, unless
      its bucket is exhausted then and opens before g. */
  lemma GlobalLimitIsKept(limits: seq<(string, nat)>, a: seq<Step>, id: nat, dontWait: bool, deadline: Option<int>,
                          b: seq<Step>)
    requires Known(Run(limits, a), id) && Run(limits, a).reqs[id].phase == Locked && NoRelease(b, id)
    requires var s' := Run(limits, a + [Check(id, dontWait, deadline)] + b);
             Known(s', id) && s'.reqs[id].phase == Granted
    ensures var s := Run(limits, a); var bucket := s.cells[s.reqs[id].key].b;
            var s' := Run(limits, a + [Check(id, dontWait, deadline)] + b);
            && Apply(s', Send(id)).log == s'.log + [SendAt(s'.reqs[id].key, s'.clock)]
            && (s'.clock >= s.global || (bucket.remaining == 0 && s.clock < bucket.reset < s.global))
  {
    hide Run;
    var s := Run(limits, a);
    var until := Until(s.cells[s.reqs[id].key].b, s.global, s.clock);
    OneMoreStep(limits, a, Check(id, dontWait, deadline));
    RunHolds(limits, a + [Check(id, dontWait, deadline)], b, id, if until <= s.clock then s.clock else until);
  }

  /**
   What Acquire decides in any run: an attempt whose bucket is exhausted until a later time has to wait for that time,
   and any other one for the global limit, if that is later than now. It is refused exactly when it has to wait and
   does not want to, or its deadline comes before that.
   */
  lemma RefusedIff(limits: seq<(string, nat)>, a: seq<Step>, id: nat, dontWait: bool, deadline: Option<int>)
    requires Known(Run(limits, a), id) && Run(limits, a).reqs[id].phase == Locked
    ensures var s := Run(limits, a); var bucket := s.cells[s.reqs[id].key].b;
            var until := if bucket.remaining == 0 && s.clock < bucket.reset then bucket.reset else s.global;
            var s' := Run(limits, a + [Check(id, dontWait, deadline)]);
            && id in s'.reqs
            && s'.reqs[id].phase == if until <= s.clock then Granted
                                    else if dontWait || (deadline.Some? && deadline.value < until) then Refused
                                    else Waiting(until)
  {
    hide Run, CustomFor;
    OneMoreStep(limits, a, Check(id, dontWait, deadline));
  }

  /** One that has the lock of an exhausted bucket is sent when the bucket opens, if it is woken then. */
  lemma WaitsForReset(limits: seq<(string, nat)>, a: seq<Step>, id: nat)
    requires var s := Run(limits, a);
             && Known(s, id) && s.reqs[id].phase == Locked
             && var bucket := s.cells[s.reqs[id].key].b; bucket.remaining == 0 && s.clock < bucket.reset
    ensures var s := Run(limits, a); var key := s.reqs[id].key; var reset := s.cells[key].b.reset;
            var s' := Run(limits, a + [Check(id, false, None)] + [Pass(reset - s.clock)] + [Wake(id)] + [Send(id)]);
            s'.log == s.log + [SendAt(key, reset)] && s'.global == s.global
  {
    hide Run;
    var s := Run(limits, a);
    var reset := s.cells[s.reqs[id].key].b.reset;
    var checked := a + [Check(id, false, None)];
    OneMoreStep(limits, a, Check(id, false, None));
    OneMoreStep(limits, checked, Pass(reset - s.clock));
    OneMoreStep(limits, checked + [Pass(reset - s.clock)], Wake(id));
    OneMoreStep(limits, checked + [Pass(reset - s.clock)] + [Wake(id)], Send(id));
  }

  /** In that case it can be sent when its bucket opens, before the global limit. */
  lemma GlobalLimitIsMissed(limits: seq<(string, nat)>, a: seq<Step>, id: nat)
    requires var s := Run(limits, a);
             && Known(s, id) && s.reqs[id].phase == Locked
             && var bucket := s.cells[s.reqs[id].key].b;
             bucket.remaining == 0 && s.clock < bucket.reset < s.global
    ensures var s := Run(limits, a); var key := s.reqs[id].key; var reset := s.cells[key].b.reset;
            var s' := Run(limits, a + [Check(id, false, None)] + [Pass(reset - s.clock)] + [Wake(id)] + [Send(id)]);
            s'.log == s.log + [SendAt(key, reset)] && reset < s'.global
  {
    WaitsForReset(limits, a, id);
  }

  const SHUT: Key := "a"

  /** A bucket is exhausted until 1.25 s, another one meets a global limit of five seconds, and a request takes
      the first one's lock. */
  function GlobalLater(): seq<Step> {
    [] + Attempt(0, SHUT) + [Pass(0), Release(0, Headers(false, Absent, Given(SECOND), Given(0)))]
    + Attempt(1, OTHER) + [Pass(0), Release(1, Headers(true, Given(5), Absent, Absent))]
    + [Begin(2, SHUT)] + [Lock(2)]
  }

  /** That case is met: such a request can be sent at 1.25 s. */
  lemma GlobalLimitCanBeMissed()
    ensures var s := Run([], GlobalLater());
            var s' := Run([], GlobalLater() + [Check(2, false, None)] + [Pass(5 * SECOND / 4)] + [Wake(2)] + [Send(2)]);
            s'.log == s.log + [SendAt(SHUT, 5 * SECOND / 4)] && s'.global == 5 * SECOND
  {
    hide Run, CustomFor, Attempt;
    var first := [] + Attempt(0, SHUT);
    var shut := first + [Pass(0), Release(0, Headers(false, Absent, Given(SECOND), Given(0)))];
    var second := shut + Attempt(1, OTHER);
    var limited := second + [Pass(0), Release(1, Headers(true, Given(5), Absent, Absent))];
    NothingRun([]);
    NoLimit(SHUT);
    NoLimit(OTHER);
    Goes([], [], 0, SHUT);
    Ends([], first, 0, 0, Headers(false, Absent, Given(SECOND), Given(0)));
    Goes([], shut, 1, OTHER);
    Ends([], second, 0, 1, Headers(true, Given(5), Absent, Absent));
    Starts([], limited, 2, SHUT);
    GlobalLimitIsMissed([], GlobalLater(), 2);
    WaitsForReset([], GlobalLater(), 2);
  }

  lemma NoLimit(key: Key)
    ensures CustomFor([], key) == None
  {
  }

  // When exactly a Release of a custom bucket spaces what follows.

  predicate ShutHolder(p: Phase, until: int, clock: nat) {
    match p
    case Waiting(u) => u >= until || clock >= until
    case Granted => clock >= until
    case _ => true
  }

  /** A custom bucket is shut until some time: nothing was sent before it since position n, nothing will be. */
  ghost predicate ShutUntil(s: State, n: nat, key: Key, r: nat, until: int) {
    && key in s.cells && CustomBucket(s.cells[key].b, r, s.clock, false)
    && s.cells[key].b.remaining == 0 && s.cells[key].b.reset >= until
    && SendsSince(s.log, n, key, until) == 0
    && forall id :: HoldsKey(s, id, key) ==> ShutHolder(s.reqs[id].phase, until, s.clock)
  }

  lemma CheckKeepsShut(s: State, id: nat, dontWait: bool, deadline: Option<int>, n: nat, key: Key, r: nat, until: int)
    requires Exclusive(s) && ShutUntil(s, n, key, r, until) && Known(s, id) && s.reqs[id].phase == Locked
    ensures ShutUntil(CheckStep(s, id, dontWait, deadline), n, key, r, until)
  {
    hide Exclusive, SendsSince;
    Elsewhere(s, CheckStep(s, id, dontWait, deadline), id, key);
  }

  lemma WakeKeepsShut(s: State, id: nat, n: nat, key: Key, r: nat, until: int)
    requires Exclusive(s) && ShutUntil(s, n, key, r, until) && Known(s, id)
    requires s.reqs[id].phase.Waiting? && s.clock >= s.reqs[id].phase.until
    ensures ShutUntil(Grant(s, id), n, key, r, until)
  {
    hide Exclusive, SendsSince;
    Elsewhere(s, Grant(s, id), id, key);
    assert s.reqs[id].key == key ==> HoldsKey(s, id, key);
  }

  lemma SendKeepsShut(s: State, id: nat, n: nat, key: Key, r: nat, until: int)
    requires ShutUntil(s, n, key, r, until) && n <= |s.log| && Known(s, id) && s.reqs[id].phase == Granted
    ensures ShutUntil(Apply(s, Send(id)), n, key, r, until)
  {
    hide SendsSince, SameBudget, CustomBucket;
    OneMoreEvent(s.log, SendAt(s.reqs[id].key, s.clock), n, key, until);
    Elsewhere(s, Apply(s, Send(id)), id, key);
    assert s.reqs[id].key == key ==> HoldsKey(s, id, key);
  }

  lemma ReleaseKeepsShut(s: State, id: nat, headers: Headers, n: nat, key: Key, r: nat, until: int)
    requires Exclusive(s) && ShutUntil(s, n, key, r, until) && n <= |s.log|
    requires Known(s, id) && s.reqs[id].phase in {Granted, Sent, Refused}
    ensures ShutUntil(ReleaseStep(s, id, headers), n, key, r, until)
  {
    hide Exclusive, Released, SendsSince, SameBudget, CustomBucket;
    var s', k, sent := ReleaseStep(s, id, headers), s.reqs[id].key, s.reqs[id].phase.Sent?;
    var answer := ReleaseAt(k, s.clock, sent);
    var budget := Budget(k, s'.cells[k].b.remaining, s'.cells[k].b.reset);
    OneMoreEvent(s.log, answer, n, key, until);
    OneMoreEvent(s.log + [answer], budget, n, key, until);
    assert s'.log == s.log + [answer] || s'.log == s.log + [answer] + [budget];
    assert forall i :: HoldsKey(s', i, key) ==> HoldsKey(s, i, key) && i != id;
    if k == key {
      ReleaseSpacing(s.cells[key].b, r, s.global, if sent then headers else NoHeaders, s.clock, false);
    }
  }

  lemma OtherKeepsShut(s: State, step: Step, n: nat, key: Key, r: nat, until: int)
    requires ShutUntil(s, n, key, r, until) && (step.Begin? || step.Lock? || step.Pass?)
    ensures ShutUntil(Apply(s, step), n, key, r, until)
  {
    hide CustomFor, SendsSince;
  }

  lemma ApplyKeepsShut(s: State, step: Step, n: nat, key: Key, r: nat, until: int)
    requires Exclusive(s) && ShutUntil(s, n, key, r, until) && n <= |s.log|
    ensures ShutUntil(Apply(s, step), n, key, r, until)
  {
    hide Exclusive, ShutUntil;
    match step {
      case Check(id, dontWait, deadline) =>
        if Known(s, id) && s.reqs[id].phase == Locked { CheckKeepsShut(s, id, dontWait, deadline, n, key, r, until); }
      case Wake(id) =>
        if Known(s, id) && s.reqs[id].phase.Waiting? && s.clock >= s.reqs[id].phase.until {
          WakeKeepsShut(s, id, n, key, r, until);
        }
      case Send(id) => if Known(s, id) && s.reqs[id].phase == Granted { SendKeepsShut(s, id, n, key, r, until); }
      case Release(id, headers) =>
        if Known(s, id) && s.reqs[id].phase in {Granted, Sent, Refused} {
          ReleaseKeepsShut(s, id, headers, n, key, r, until);
        }
      case _ => OtherKeepsShut(s, step, n, key, r, until);
    }
  }

  lemma {:induction false} ShutLasts(limits: seq<(string, nat)>, a: seq<Step>, b: seq<Step>,
                                     n: nat, key: Key, r: nat, until: int)
    requires n <= |Run(limits, a).log| && ShutUntil(Run(limits, a), n, key, r, until)
    ensures ShutUntil(Run(limits, a + b), n, key, r, until)
  {
    hide Run, ShutUntil;
    if b == [] {
      assert a + b == a;
    } else {
      var before, step := b[..|b| - 1], b[|b| - 1];
      assert a + b == a + before + [step];
      ShutLasts(limits, a, before, n, key, r, until);
      LogsGrow(limits, a, before);
      RunExclusive(limits, a + before);
      OneMoreStep(limits, a + before, step);
      ApplyKeepsShut(Run(limits, a + before), step, n, key, r, until);
    }
  }

  /** After the steps a, the steps b send something on the bucket before a point in time. */
  ghost predicate SendsEarly(limits: seq<(string, nat)>, a: seq<Step>, b: seq<Step>, key: Key, before: int) {
    SendsSince(Run(limits, a + b).log, |Run(limits, a).log|, key, before) > 0
  }

  /** The answer to a sent attempt moves the reset time, or one was moved at that instant. */
  predicate MovesReset(b: Bucket, clock: nat) {
    CustomDue(b, clock) || b.lastReset == Some(clock)
  }

  lemma MovedResetShuts(limits: seq<(string, nat)>, a: seq<Step>, id: nat, headers: Headers, r: nat)
    requires var s := Run(limits, a);
             && Known(s, id) && s.reqs[id].phase == Sent && CustomFor(limits, s.reqs[id].key) == Some(r)
             && MovesReset(s.cells[s.reqs[id].key].b, s.clock)
    ensures var s, s' := Run(limits, a), Run(limits, a + [Release(id, headers)]);
            ShutUntil(s', |s'.log|, s.reqs[id].key, r, s.clock + r)
  {
    hide Run, CustomFor, Spaced, AnswersHeld;
    var s, s' := Run(limits, a), Run(limits, a + [Release(id, headers)]);
    var key := s.reqs[id].key;
    RunKeepsSpacing(limits, a, key, r, false);
    assert HoldsKey(s, id, key);
    OneMoreStep(limits, a, Release(id, headers));
    ReleaseGivesBack(limits, a, id, headers);
    assert s'.log[|s'.log|..] == [];
  }

  /** A request that starts now on a free bucket without turns, and waits for it to open. */
  function AtReset(s: State, id: nat, key: Key, reset: int): seq<Step>
    requires reset >= s.clock
  {
    [Begin(id, key)] + [Lock(id)] + [Check(id, false, None)] + [Pass(reset - s.clock)] + [Wake(id)] + [Send(id)]
  }

  lemma GoesAtReset(limits: seq<(string, nat)>, a: seq<Step>, id: nat, key: Key, reset: int)
    requires var s := Run(limits, a);
             && Unused(s, id) && Free(s, key) && key in s.cells
             && s.cells[key].b.remaining == 0 && s.cells[key].b.reset == reset > s.clock
    ensures var s := Run(limits, a);
            Run(limits, a + AtReset(s, id, key, reset)).log == s.log + [SendAt(key, reset)]
  {
    hide Run;
    var s, locked := Run(limits, a), a + [Begin(id, key)] + [Lock(id)];
    Starts(limits, a, id, key);
    WaitsForReset(limits, locked, id);
    assert locked + [Check(id, false, None)] + [Pass(reset - s.clock)] + [Wake(id)] + [Send(id)]
        == a + AtReset(s, id, key, reset);
  }

  /** Otherwise a request that starts right after it waits for the old reset time only. */
  lemma OldResetIsEarly(limits: seq<(string, nat)>, a: seq<Step>, id: nat, headers: Headers, r: nat)
    requires var s := Run(limits, a);
             && Known(s, id) && s.reqs[id].phase == Sent && CustomFor(limits, s.reqs[id].key) == Some(r)
             && !MovesReset(s.cells[s.reqs[id].key].b, s.clock)
    ensures var s, s' := Run(limits, a), Run(limits, a + [Release(id, headers)]);
            var key := s.reqs[id].key; var reset := s.cells[key].b.reset;
            && s'.clock == s.clock < reset < s.clock + r
            && Run(limits, a + [Release(id, headers)] + AtReset(s', id, key, reset)).log
               == s'.log + [SendAt(key, reset)]
  {
    hide Run, CustomFor, Spaced, AnswersHeld, AtReset;
    var s := Run(limits, a);
    var key := s.reqs[id].key;
    RunKeepsSpacing(limits, a, key, r, false);
    assert HoldsKey(s, id, key);
    OneMoreStep(limits, a, Release(id, headers));
    GoesAtReset(limits, a + [Release(id, headers)], id, key, s.cells[key].b.reset);
  }

  /** Something can be sent on the bucket before a point in time. */
  ghost predicate CanSendEarly(limits: seq<(string, nat)>, a: seq<Step>, key: Key, before: int) {
    exists b :: SendsEarly(limits, a, b, key, before)
  }

  /**
   Spacing over runs, exactly: in every run, after the answer to a request on a bucket with the custom limit R,
   something can be sent there less than R later if and only if that Release does not move the reset time, and
   none did at the same instant.
   */
  lemma SpacedAfterIff(limits: seq<(string, nat)>, a: seq<Step>, id: nat, headers: Headers, r: nat)
    requires var s := Run(limits, a);
             Known(s, id) && s.reqs[id].phase == Sent && CustomFor(limits, s.reqs[id].key) == Some(r)
    ensures var s := Run(limits, a); var key := s.reqs[id].key;
            CanSendEarly(limits, a + [Release(id, headers)], key, s.clock + r)
            <==> !MovesReset(s.cells[key].b, s.clock)
  {
    hide Run, CustomFor, MovesReset, SendsSince, AtReset;
    var s, a0 := Run(limits, a), a + [Release(id, headers)];
    var s0, key, before := Run(limits, a0), s.reqs[id].key, s.clock + r;
    if MovesReset(s.cells[key].b, s.clock) {
      MovedResetShuts(limits, a, id, headers, r);
      forall b ensures !SendsEarly(limits, a0, b, key, before) {
        ShutLasts(limits, a0, b, |s0.log|, key, r, before);
      }
    } else {
      OldResetIsEarly(limits, a, id, headers, r);
      var reset := s.cells[key].b.reset;
      OneMoreEvent(s0.log, SendAt(key, reset), |s0.log|, key, before);
      assert SendsEarly(limits, a0, AtReset(s0, id, key, reset), key, before);
    }
  }
}
