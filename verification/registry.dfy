// The event handler registry (utils/handler/handler.go): one slab of handlers per event type, and
// one, under no type, for the handlers of interfaces.

module Registry {
  import opened Optional
  import opened SlabList

  type EventType = string

  /** For an interface handler `event` is the interface. */
  datatype Handler = Handler(event: EventType, isIface: bool, callback: nat)

  datatype Registration = Registration(handler: Handler, live: bool)

  /** What the remove closure of AddHandler has captured. */
  datatype Token = Token(key: Option<EventType>, id: int)

  function Key(h: Handler): Option<EventType> {
    if h.isIface then None else Some(h.event)
  }

  /** The registrations under one key, in order. */
  function Of(history: seq<Registration>, key: Option<EventType>): seq<Registration> {
    if history == [] then []
    else
      var last := history[|history| - 1];
      Of(history[..|history| - 1], key) + if Key(last.handler) == key then [last] else []
  }

  /** Where in the history the id-th registration under a key is. */
  function Position(history: seq<Registration>, key: Option<EventType>, id: nat): (p: nat)
    requires id < |Of(history, key)|
    ensures p < |history|
  {
    var before, last := history[..|history| - 1], history[|history| - 1];
    if Key(last.handler) == key && id == |Of(before, key)| then |before| else Position(before, key, id)
  }

  function Removed(history: seq<Registration>, p: nat): seq<Registration>
    requires p < |history|
  {
    history[p := history[p].(live := false)]
  }

  predicate Wants(r: Registration, key: Option<EventType>, t: EventType, implements: (EventType, EventType) -> bool) {
    r.live && Key(r.handler) == key && (key.None? ==> implements(t, r.handler.event))
  }

  /** The registrations under a key that are still there and want an event of type t, in order. */
  function Called(history: seq<Registration>, key: Option<EventType>, t: EventType,
                  implements: (EventType, EventType) -> bool): seq<Handler>
  {
    if history == [] then []
    else
      var last := history[|history| - 1];
      Called(history[..|history| - 1], key, t, implements)
      + if Wants(last, key, t, implements) then [last.handler] else []
  }

  /** Everything an event of type t is passed to: first the handlers of its type, then those of
      the interfaces it implements. */
  function Callers(history: seq<Registration>, t: EventType, implements: (EventType, EventType) -> bool): seq<Handler> {
    Called(history, Some(t), t, implements) + Called(history, None, t, implements)
  }

  lemma OfAppended(history: seq<Registration>, r: Registration, key: Option<EventType>)
    ensures Of(history + [r], key) == if Key(r.handler) == key then Of(history, key) + [r] else Of(history, key)
  {
    assert (history + [r])[..|history|] == history;
  }

  lemma PositionAppended(history: seq<Registration>, r: Registration)
    ensures var key := Key(r.handler);
            |Of(history + [r], key)| == |Of(history, key)| + 1
            && Position(history + [r], key, |Of(history, key)|) == |history|
  {
    assert (history + [r])[..|history|] == history;
  }

  /** The history at a position is the registration it is the position of. */
  lemma {:induction false} PositionIs(history: seq<Registration>, key: Option<EventType>, id: nat)
    requires id < |Of(history, key)|
    ensures var p := Position(history, key, id);
            history[p] == Of(history, key)[id] && Key(history[p].handler) == key
  {
    if Position(history, key, id) != |history| - 1 {
      PositionIs(history[..|history| - 1], key, id);
    }
  }

  lemma {:induction false} OfConcat(a: seq<Registration>, b: seq<Registration>, key: Option<EventType>)
    ensures Of(a + b, key) == Of(a, key) + Of(b, key)
  {
    if b == [] {
      assert a + b == a;
    } else {
      OfConcat(a, b[..|b| - 1], key);
      assert (a + b)[..|a + b| - 1] == a + b[..|b| - 1];
    }
  }

  lemma {:induction false} PositionCounts(history: seq<Registration>, key: Option<EventType>, id: nat)
    requires id < |Of(history, key)|
    ensures |Of(history[..Position(history, key, id)], key)| == id
  {
    var before, p := history[..|history| - 1], Position(history, key, id);
    if p < |before| {
      PositionCounts(before, key, id);
      assert before[..p] == history[..p];
    }
  }

  /** A history around one of its registrations. */
  lemma OfAround(a: seq<Registration>, r: Registration, b: seq<Registration>, key: Option<EventType>)
    ensures Of(a + [r] + b, key) == Of(a, key) + (if Key(r.handler) == key then [r] else []) + Of(b, key)
  {
    hide Of;
    OfConcat(a + [r], b, key);
    OfAppended(a, r, key);
  }

  /** Removing one registration changes that one and no other, under any key. */
  lemma OfRemoved(history: seq<Registration>, key: Option<EventType>, id: nat, k: Option<EventType>)
    requires id < |Of(history, key)|
    ensures var regs := Of(history, key);
            Of(Removed(history, Position(history, key, id)), k)
            == if k == key then regs[id := regs[id].(live := false)] else Of(history, k)
  {
    hide Of, Position;
    var p := Position(history, key, id);
    var a, r, b := history[..p], history[p], history[p + 1..];
    PositionIs(history, key, id);
    PositionCounts(history, key, id);
    assert history == a + [r] + b && Removed(history, p) == a + [r.(live := false)] + b;
    OfAround(a, r, b, k);
    OfAround(a, r.(live := false), b, k);
  }

  lemma NoneCalled(key: Option<EventType>, t: EventType, implements: (EventType, EventType) -> bool)
    ensures Called([], key, t, implements) == []
  {
  }

  lemma CalledStep(regs: seq<Registration>, i: nat, key: Option<EventType>, t: EventType,
                   implements: (EventType, EventType) -> bool)
    requires i < |regs|
    ensures Called(regs[..i + 1], key, t, implements)
            == Called(regs[..i], key, t, implements)
               + if Wants(regs[i], key, t, implements) then [regs[i].handler] else []
  {
    assert regs[..i + 1][..i] == regs[..i];
  }

  lemma {:induction false} CalledPrefix(regs: seq<Registration>, i: nat, key: Option<EventType>, t: EventType,
                                        implements: (EventType, EventType) -> bool)
    requires i <= |regs|
    ensures Called(regs[..i], key, t, implements) <= Called(regs, key, t, implements)
    decreases |regs| - i
  {
    if i < |regs| {
      CalledStep(regs, i, key, t, implements);
      CalledPrefix(regs, i + 1, key, t, implements);
    } else {
      assert regs[..i] == regs;
    }
  }

  /** Only the registrations under the key matter. */
  lemma {:induction false} CalledOf(history: seq<Registration>, key: Option<EventType>, t: EventType,
                                    implements: (EventType, EventType) -> bool)
    ensures Called(Of(history, key), key, t, implements) == Called(history, key, t, implements)
  {
    if history != [] {
      var before, last := Of(history[..|history| - 1], key), history[|history| - 1];
      CalledOf(history[..|history| - 1], key, t, implements);
      if Key(last.handler) == key {
        assert Of(history, key)[..|before|] == before && Of(history, key)[|before|] == last;
      } else {
        assert Of(history, key) == before;
      }
    }
  }

  lemma {:induction false} KeysOf(history: seq<Registration>, key: Option<EventType>, i: nat)
    requires i < |Of(history, key)|
    ensures Key(Of(history, key)[i].handler) == key
  {
    if i < |Of(history[..|history| - 1], key)| {
      KeysOf(history[..|history| - 1], key, i);
    }
  }

  /** One slab against the registrations under its key: ids are never used again. */
  predicate Agrees(cells: seq<Entry<Handler>>, regs: seq<Registration>) {
    && |cells| == |regs|
    && forall i :: 0 <= i < |cells| ==>
         && (cells[i].index == TAKEN <==> regs[i].live)
         && cells[i].handler == if regs[i].live then Some(regs[i].handler) else None
  }

  lemma AgreesAdded(cells: seq<Entry<Handler>>, regs: seq<Registration>, h: Handler)
    requires Agrees(cells, regs)
    ensures Agrees(cells + [Entry(TAKEN, Some(h))], regs + [Registration(h, true)])
  {
  }

  lemma SameLength(cells: seq<Entry<Handler>>, regs: seq<Registration>)
    requires Agrees(cells, regs)
    ensures |cells| == |regs|
  {
  }

  lemma AgreesRemoved(cells: seq<Entry<Handler>>, regs: seq<Registration>, id: nat, free: nat)
    requires Agrees(cells, regs) && id < |regs|
    ensures id < |cells| && Agrees(cells[id := Entry(free, None)], regs[id := regs[id].(live := false)])
    ensures cells[id].handler == if regs[id].live then Some(regs[id].handler) else None
  {
  }

  class EventHandler {
    const implements: (EventType, EventType) -> bool
    var events: map<Option<EventType>, Struct<Handler>>
    ghost var history: seq<Registration>
    ghost var repr: set<object>
    ghost var owner: map<object, Option<EventType>>   // which key an array is used under

    /** The slab under a key is in order, and all its slots before the end have been handed out. */
    ghost predicate Sound(key: Option<EventType>)
      reads this, repr
    {
      key in events ==>
        && events[key].entries in repr && events[key].entries in owner && owner[events[key].entries] == key
        && events[key].free == events[key].len <= events[key].entries.Length
    }

    ghost function Cells(key: Option<EventType>): seq<Entry<Handler>>
      reads this, repr
      requires Sound(key)
    {
      if key in events then events[key].entries[..events[key].len] else []
    }

    ghost predicate Valid()
      reads this, repr
    {
      forall key :: Sound(key) && Agrees(Cells(key), Of(history, key))
    }

    constructor (implements: (EventType, EventType) -> bool)
      ensures Valid() && history == [] && repr == {} && this.implements == implements
    {
      this.implements := implements;
      events, history, repr, owner := map[], [], {}, map[];
    }

    /** The slab under a key, copied and with a handler put in. */
    method PutInCopy(key: Option<EventType>, h: Handler) returns (slab: Struct<Handler>, id: int)
      requires Sound(key)
      modifies if key in events then {events[key].entries} else {}
      ensures slab.free == slab.len <= slab.entries.Length
      ensures fresh(slab.entries) || (key in events && slab.entries == events[key].entries)
      ensures slab.entries[..slab.len] == old(Cells(key)) + [Entry(TAKEN, Some(h))] && id == |old(Cells(key))|
    {
      var copy;
      if key in events {
        copy := new Slab<Handler>.From(events[key]);
      } else {
        copy := new Slab<Handler>();
      }
      id := copy.Put(h);
      slab := copy.Value();
      assert slab.len == |copy.View().cells|;
    }

    /** The slab is copied, filled and stored back. */
    method AddHandler(h: Handler) returns (token: Token)
      requires Valid()
      modifies this, repr
      ensures Valid() && fresh(repr - old(repr))
      ensures history == old(history) + [Registration(h, true)]
      ensures token.key == Key(h) && 0 <= token.id < |Of(history, token.key)|
      ensures Position(history, token.key, token.id) == |old(history)|
    {
      hide Of, Position, Agrees;
      var key := Key(h);
      AgreesAdded(Cells(key), Of(history, key), h);
      SameLength(Cells(key), Of(history, key));
      var slab, id := PutInCopy(key, h);
      PositionAppended(history, Registration(h, true));
      events := events[key := slab];
      repr, owner := repr + {slab.entries}, owner[slab.entries := key];
      history := history + [Registration(h, true)];
      forall k ensures Sound(k) && Agrees(Cells(k), Of(history, k)) {
        OfAppended(old(history), Registration(h, true), k);
        assert old(Sound(k));
        assert old(Agrees(Cells(k), Of(history, k)));
        if k == key {
          assert Cells(k) == slab.entries[..slab.len];
        } else if k in events {
          assert Cells(k) == old(Cells(k));
        }
      }
      return Token(key, id);
    }

    /** The remove closure: the slab is copied, the copy's slot freed, and the copy thrown away. Only the
        array that it shares with the original remembers. */
    method Remove(token: Token) returns (popped: Option<Handler>)
      requires Valid() && 0 <= token.id < |Of(history, token.key)|
      modifies this`history, repr
      ensures Valid()
      ensures var p := Position(old(history), token.key, token.id);
              && history == Removed(old(history), p)
              && popped == if old(history)[p].live then Some(old(history)[p].handler) else None
    {
      hide Of, Position, Removed, Agrees;
      ghost var p, regs := Position(history, token.key, token.id), Of(history, token.key);
      PositionIs(history, token.key, token.id);
      assert Sound(token.key) && Agrees(Cells(token.key), regs);
      SameLength(Cells(token.key), regs);
      AgreesRemoved(Cells(token.key), regs, token.id, events[token.key].free);
      var slab := new Slab<Handler>.From(events[token.key]);
      popped := slab.Pop(token.id);
      history := Removed(history, p);
      forall k ensures Sound(k) && Agrees(Cells(k), Of(history, k)) {
        OfRemoved(old(history), token.key, token.id, k);
        assert old(Sound(k));
        assert old(Agrees(Cells(k), Of(history, k)));
        if k != token.key {
          assert Cells(k) == old(Cells(k));
        }
      }
    }

    /** One of the two loops over the entries of a slab: skips dead ones and unwanted interfaces. */
    method Walk(key: Option<EventType>, t: EventType, before: seq<Handler>, stop: Option<nat>)
      returns (visited: seq<Handler>, more: bool)
      requires Valid() && (stop.Some? ==> |before| <= stop.value)
      ensures var all := before + Called(history, key, t, implements);
              if stop.Some? && stop.value < |all| then !more && visited == all[..stop.value + 1]
              else more && visited == all
    {
      hide Of, Called, Valid;
      visited := before;
      ghost var regs := Of(history, key);
      assert Sound(key) && Agrees(Cells(key), regs) by { InOrder(key); }
      CalledOf(history, key, t, implements);
      NoneCalled(key, t, implements);
      if key !in events {
        assert regs == [];
        return visited, true;
      }
      for i := 0 to events[key].len
        invariant visited == before + Called(regs[..i], key, t, implements)
        invariant stop.Some? ==> |visited| <= stop.value
      {
        CalledStep(regs, i, key, t, implements);
        KeysOf(history, key, i);
        var entry := events[key].entries[i];
        assert entry == Cells(key)[i];
        if entry.index != TAKEN || (key.None? && !implements(t, entry.handler.value.event)) {
          continue;
        }
        visited := visited + [entry.handler.value];
        if stop.Some? && |visited| == stop.value + 1 {
          CalledPrefix(regs, i + 1, key, t, implements);
          return visited, false;
        }
      }
      assert regs[..|regs|] == regs;
      more := true;
    }

    lemma InOrder(key: Option<EventType>)
      requires Valid()
      ensures Sound(key) && Agrees(Cells(key), Of(history, key))
    {
    }

    /** Passes the handlers for an event of type t to a consumer, which may stop at one of them. */
    method AllCallersForType(t: EventType, stop: Option<nat>) returns (visited: seq<Handler>)
      requires Valid()
      ensures var all := Callers(history, t, implements);
              visited == if stop.Some? && stop.value < |all| then all[..stop.value + 1] else all
    {
      var more;
      visited, more := Walk(Some(t), t, [], stop);
      if more {
        visited, more := Walk(None, t, visited, stop);
      }
    }
  }

  // Remove functions keep meaning the handler they were made for.

  lemma {:induction false} OfKept(history: seq<Registration>, p: nat, key: Option<EventType>)
    requires p < |history|
    ensures |Of(Removed(history, p), key)| == |Of(history, key)|
  {
    var before := history[..|history| - 1];
    if p < |before| {
      OfKept(before, p, key);
      assert Removed(history, p)[..|before|] == Removed(before, p);
    } else {
      assert Removed(history, p)[..|before|] == before;
    }
  }

  /** A token stands for the same registration whatever is added or removed later. */
  lemma {:induction false} TokenIsStable(history: seq<Registration>, key: Option<EventType>, id: nat,
                                         r: Registration, p: nat)
    requires id < |Of(history, key)| && p < |history|
    ensures id < |Of(history + [r], key)| && id < |Of(Removed(history, p), key)|
    ensures Position(history + [r], key, id) == Position(history, key, id)
    ensures Position(Removed(history, p), key, id) == Position(history, key, id)
  {
    var before := history[..|history| - 1];
    assert (history + [r])[..|history|] == history;
    OfKept(history, p, key);
    if p < |before| {
      assert Removed(history, p)[..|before|] == Removed(before, p);
      OfKept(before, p, key);
      if Position(history, key, id) != |before| {
        TokenIsStable(before, key, id, r, p);
      }
    } else {
      assert Removed(history, p)[..|before|] == before;
    }
  }

  /** Different tokens stand for different registrations. */
  lemma TokensDiffer(history: seq<Registration>, a: Option<EventType>, i: nat, b: Option<EventType>, j: nat)
    requires i < |Of(history, a)| && j < |Of(history, b)|
    ensures Position(history, a, i) == Position(history, b, j) <==> a == b && i == j
  {
    PositionIs(history, a, i);
    PositionIs(history, b, j);
    if a == b && i < j {
      PositionsGrow(history, a, i, j);
    } else if a == b && j < i {
      PositionsGrow(history, a, j, i);
    }
  }

  lemma {:induction false} PositionsGrow(history: seq<Registration>, key: Option<EventType>, i: nat, j: nat)
    requires i < j < |Of(history, key)|
    ensures Position(history, key, i) < Position(history, key, j)
  {
    var before := history[..|history| - 1];
    if j < |Of(before, key)| {
      PositionsGrow(before, key, i, j);
    }
  }

  // Histories of whole programs.

  /** Adding a handler, or calling the remove function that the n-th Add returned. */
  datatype Op = Add(h: Handler) | Cancel(n: nat)

  function History(ops: seq<Op>): seq<Registration> {
    if ops == [] then []
    else
      var before := History(ops[..|ops| - 1]);
      match ops[|ops| - 1]
      case Add(h) => before + [Registration(h, true)]
      case Cancel(n) => if n < |before| then Removed(before, n) else before
  }

  /** The handlers added, in order. */
  function Added(ops: seq<Op>): seq<Handler> {
    if ops == [] then []
    else Added(ops[..|ops| - 1]) + match ops[|ops| - 1] case Add(h) => [h] case Cancel(_) => []
  }

  /** The remove function of the n-th handler was called, once or more, after it was added. */
  predicate Cancelled(ops: seq<Op>, n: nat) {
    ops != []
    && (Cancelled(ops[..|ops| - 1], n) || (ops[|ops| - 1] == Cancel(n) && n < |Added(ops[..|ops| - 1])|))
  }

  lemma {:induction false} HistoryIs(ops: seq<Op>)
    ensures |History(ops)| == |Added(ops)|
    ensures forall n :: 0 <= n < |Added(ops)| ==> History(ops)[n] == Registration(Added(ops)[n], !Cancelled(ops, n))
    ensures forall n :: n >= |Added(ops)| ==> !Cancelled(ops, n)
  {
    if ops != [] {
      HistoryIs(ops[..|ops| - 1]);
    }
  }

  predicate Expects(h: Handler, t: EventType, implements: (EventType, EventType) -> bool) {
    if h.isIface then implements(t, h.event) else h.event == t
  }

  /** An event is passed to the handlers that were added, were never removed, and want it. */
  lemma CalledExactly(ops: seq<Op>, t: EventType, implements: (EventType, EventType) -> bool, h: Handler)
    ensures h in Callers(History(ops), t, implements)
            <==> exists n :: 0 <= n < |Added(ops)| && Added(ops)[n] == h && !Cancelled(ops, n)
                             && Expects(h, t, implements)
  {
    hide Called, History, Added, Cancelled;
    var history := History(ops);
    HistoryIs(ops);
    CalledIff(history, Some(t), t, implements, h);
    CalledIff(history, None, t, implements, h);
    if n :| 0 <= n < |Added(ops)| && Added(ops)[n] == h && !Cancelled(ops, n) && Expects(h, t, implements) {
      assert history[n] == Registration(h, true);
      assert Wants(history[n], if h.isIface then None else Some(t), t, implements);
    }
  }

  lemma {:induction false} CalledIff(history: seq<Registration>, key: Option<EventType>, t: EventType,
                                     implements: (EventType, EventType) -> bool, h: Handler)
    ensures h in Called(history, key, t, implements)
            <==> exists n :: 0 <= n < |history| && history[n].handler == h && Wants(history[n], key, t, implements)
  {
    if history != [] {
      var before := history[..|history| - 1];
      CalledIff(before, key, t, implements, h);
      assert forall n :: 0 <= n < |before| ==> before[n] == history[n];
    }
  }

  /** The positions of these registrations. */
  function CalledAt(history: seq<Registration>, key: Option<EventType>, t: EventType,
                    implements: (EventType, EventType) -> bool): seq<nat>
  {
    if history == [] then []
    else
      CalledAt(history[..|history| - 1], key, t, implements)
      + if Wants(history[|history| - 1], key, t, implements) then [|history| - 1] else []
  }

  lemma {:induction false} CalledAtIs(history: seq<Registration>, key: Option<EventType>, t: EventType,
                                      implements: (EventType, EventType) -> bool)
    ensures var ps, called := CalledAt(history, key, t, implements), Called(history, key, t, implements);
            && |ps| == |called|
            && (forall i :: 0 <= i < |ps| ==>
                  ps[i] < |history| && Wants(history[ps[i]], key, t, implements) && called[i] == history[ps[i]].handler)
            && (forall i, j :: 0 <= i < j < |ps| ==> ps[i] < ps[j])
    ensures forall n :: 0 <= n < |history| && Wants(history[n], key, t, implements) ==>
              n in CalledAt(history, key, t, implements)
  {
    hide Wants;
    if history != [] {
      var before := history[..|history| - 1];
      CalledAtIs(before, key, t, implements);
      assert forall n :: 0 <= n < |before| ==> before[n] == history[n];
    }
  }

  /** Of the handlers added, the n-th is expected to see an event of type t. */
  predicate Sees(ops: seq<Op>, n: nat, t: EventType, implements: (EventType, EventType) -> bool) {
    n < |Added(ops)| && !Cancelled(ops, n)
    && (if Added(ops)[n].isIface then implements(t, Added(ops)[n].event) else Added(ops)[n].event == t)
  }

  /**
   And in this order: the handlers of the event's type before those of interfaces, and each kind in the order in
   which they were added; each once for every time it was added. `ps` says which call is for which of them.
   */
  lemma CalledInOrder(ops: seq<Op>, t: EventType, implements: (EventType, EventType) -> bool) returns (ps: seq<nat>)
    ensures var added, called := Added(ops), Callers(History(ops), t, implements);
            && |ps| == |called|
            && (forall i :: 0 <= i < |ps| ==> Sees(ops, ps[i], t, implements) && called[i] == added[ps[i]])
            && (forall i, j :: 0 <= i < j < |ps| ==>
                  (!called[i].isIface && called[j].isIface)
                  || (called[i].isIface == called[j].isIface && ps[i] < ps[j]))
    ensures forall n: nat :: Sees(ops, n, t, implements) ==> n in ps
  {
    hide Called, CalledAt, History, Added, Cancelled;
    var history := History(ops);
    var typed, ifaces := CalledAt(history, Some(t), t, implements), CalledAt(history, None, t, implements);
    HistoryIs(ops);
    CalledAtIs(history, Some(t), t, implements);
    CalledAtIs(history, None, t, implements);
    ps := typed + ifaces;
    forall n: nat | Sees(ops, n, t, implements) ensures n in ps {
      assert history[n] == Registration(Added(ops)[n], true);
      assert Wants(history[n], if Added(ops)[n].isIface then None else Some(t), t, implements);
    }
  }

  /** Calling a remove function again changes nothing. */
  lemma CancelAgain(ops: seq<Op>, n: nat)
    requires Cancelled(ops, n)
    ensures History(ops + [Cancel(n)]) == History(ops)
  {
    HistoryIs(ops);
    assert (ops + [Cancel(n)])[..|ops|] == ops;
  }
}
