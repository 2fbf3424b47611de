// The intrusive free list that event handlers live in (utils/handler/slab.go).

module SlabList {
  import opened Optional

  /** `index` is -1 while the slot is taken, and else the next free slot. A freed slot has no handler. */
  datatype Entry<H> = Entry(index: int, handler: Option<H>)

  datatype State<H> = State(cells: seq<Entry<H>>, free: int)

  const TAKEN := -1

  predicate InUse<H>(s: State<H>, i: int) {
    0 <= i < |s.cells| && s.cells[i].index == TAKEN
  }

  predicate Dead<H>(s: State<H>, i: int) {
    0 <= i < |s.cells| && s.cells[i].index != TAKEN
  }

  function Filled<H>(s: State<H>, h: H): (State<H>, int)
    requires 0 <= s.free <= |s.cells|
  {
    if s.free == |s.cells| then (State(s.cells + [Entry(TAKEN, Some(h))], s.free + 1), s.free)
    else (State(s.cells[s.free := Entry(TAKEN, Some(h))], s.cells[s.free].index), s.free)
  }

  function Freed<H>(s: State<H>, i: int): State<H>
    requires 0 <= i < |s.cells|
  {
    State(s.cells[i := Entry(s.free, None)], i)
  }

  /** The struct as a value, with a Go slice as a backing array and a length. Copies share the array. */
  datatype Struct<H> = Struct(entries: array<Entry<H>>, len: nat, free: int)

  /** A variable that holds the struct. */
  class Slab<H(0)> {
    var entries: array<Entry<H>>
    var len: nat
    var free: int

    ghost predicate Valid()
      reads this
    {
      len <= entries.Length
    }

    function View(): State<H>
      reads this, entries
      requires Valid()
    {
      State(entries[..len], free)
    }

    /** The zero value. */
    constructor ()
      ensures Valid() && fresh(entries) && View() == State([], 0)
    {
      entries := new Entry<H>[0];
      len, free := 0, 0;
    }

    /** A variable that a value is assigned to. */
    constructor From(s: Struct<H>)
      ensures Value() == s
    {
      entries, len, free := s.entries, s.len, s.free;
    }

    function Value(): Struct<H>
      reads this
    {
      Struct(entries, len, free)
    }

    /** append: in place while the array has room, else in a new array. */
    method Append(e: Entry<H>)
      requires Valid()
      modifies this`entries, this`len, entries
      ensures Valid() && (entries == old(entries) || fresh(entries))
      ensures View() == State(old(View()).cells + [e], old(free))
      ensures entries == old(entries) ==> old(len) < entries.Length
      ensures entries != old(entries) ==> old(entries)[..] == old(entries[..])
    {
      if len == entries.Length {
        var grown := new Entry<H>[2 * len + 1](_ => e);
        forall i | 0 <= i < len {
          grown[i] := entries[i];
        }
        entries := grown;
      }
      entries[len] := e;
      len := len + 1;
    }

    method Put(h: H) returns (id: int)
      requires Valid() && 0 <= free <= len
      modifies this, entries
      ensures Valid() && (entries == old(entries) || fresh(entries))
      ensures (View(), id) == Filled(old(View()), h)
    {
      if free == len {
        id := len;
        Append(Entry(TAKEN, Some(h)));
        free := free + 1;
        return;
      }
      var next := entries[free].index;
      entries[free] := Entry(TAKEN, Some(h));
      id := free;
      free := next;
    }

    method Get(i: int) returns (h: Option<H>)
      requires Valid() && 0 <= i < len
      ensures h == View().cells[i].handler
    {
      h := entries[i].handler;
    }

    method Pop(i: int) returns (popped: Option<H>)
      requires Valid() && 0 <= i < len
      modifies this`free, entries
      ensures Valid() && View() == Freed(old(View()), i)
      ensures popped == old(View()).cells[i].handler
    {
      popped := entries[i].handler;
      entries[i] := Entry(free, None);
      free := i;
    }
  }

  // The free list.

  /** What the entry at position k of the free list points to. */
  function Next(chain: seq<int>, k: int, end: int): int
    requires -1 <= k < |chain|
  {
    if k + 1 < |chain| then chain[k + 1] else end
  }

  ghost predicate Distinct(chain: seq<int>) {
    forall j, k :: 0 <= j < k < |chain| ==> chain[j] != chain[k]
  }

  /** From `free` on, the entries lead through `chain` to the end of the slab: every dead slot
      once, no slot in use. */
  ghost predicate FreeList<H>(s: State<H>, chain: seq<int>) {
    && Distinct(chain)
    && (forall i :: Dead(s, i) <==> i in chain)
    && (forall i :: InUse(s, i) ==> s.cells[i].handler.Some?)
    && s.free == Next(chain, -1, |s.cells|)
    && (forall k :: 0 <= k < |chain| ==> Dead(s, chain[k]) && s.cells[chain[k]].index == Next(chain, k, |s.cells|))
  }

  /** The handlers held, by id. */
  function Held<H>(s: State<H>): map<int, Option<H>> {
    map i: int | 0 <= i < |s.cells| && InUse(s, i) :: s.cells[i].handler
  }

  /** Put hands out an id that is not in use and stores the handler under it, and nothing else. */
  lemma PutRefines<H>(s: State<H>, chain: seq<int>, h: H)
    requires FreeList(s, chain)
    ensures 0 <= s.free <= |s.cells|
    ensures var (s', id) := Filled(s, h);
            && id !in Held(s) && Held(s') == Held(s)[id := Some(h)]
            && FreeList(s', if chain == [] then [] else chain[1..])
  {
    if chain == [] {
      PutAppends(s, h);
    } else {
      assert Dead(s, chain[0]);
      PutReuses(s, chain, h);
    }
    PutHolds(s, h);
  }

  lemma PutHolds<H>(s: State<H>, h: H)
    requires 0 <= s.free <= |s.cells| && !InUse(s, s.free)
    ensures var (s', id) := Filled(s, h); id !in Held(s) && Held(s') == Held(s)[id := Some(h)]
  {
  }

  lemma PutAppends<H>(s: State<H>, h: H)
    requires FreeList(s, [])
    ensures FreeList(Filled(s, h).0, [])
  {
    var s' := Filled(s, h).0;
    forall i ensures !Dead(s', i) && (InUse(s', i) ==> s'.cells[i].handler.Some?) {
      assert !Dead(s, i);
    }
  }

  /** The rest of a list without duplicates is the list without its first entry. */
  lemma RestOf(chain: seq<int>)
    requires Distinct(chain) && chain != []
    ensures Distinct(chain[1..])
    ensures forall i :: i in chain[1..] <==> i in chain && i != chain[0]
    ensures forall k :: 0 <= k < |chain| - 1 ==> chain[1..][k] == chain[k + 1]
  {
    forall i ensures i in chain[1..] <==> i in chain && i != chain[0] {
      if i in chain && i != chain[0] {
        var k :| 0 <= k < |chain| && chain[k] == i;
        assert chain[1..][k - 1] == i;
      }
    }
  }

  /** Filling the first dead slot leaves the links of the others. */
  lemma LinksAfterPut<H>(s: State<H>, chain: seq<int>, h: H)
    requires FreeList(s, chain) && chain != []
    ensures s.free == chain[0] && Dead(s, chain[0])
    ensures var (s', _) := Filled(s, h); var rest := chain[1..];
            && s'.free == Next(rest, -1, |s'.cells|)
            && forall k :: 0 <= k < |rest| ==> Dead(s', rest[k]) && s'.cells[rest[k]].index == Next(rest, k, |s'.cells|)
  {
    assert Dead(s, chain[0]);
    var s', rest := Filled(s, h).0, chain[1..];
    forall k | 0 <= k < |rest| ensures Dead(s', rest[k]) && s'.cells[rest[k]].index == Next(rest, k, |s'.cells|) {
      assert rest[k] == chain[k + 1] && chain[0] != chain[k + 1] && Dead(s, chain[k + 1]);
    }
  }

  /** Which slots are dead, and that the others have handlers. */
  lemma SlotsAfterPut<H>(s: State<H>, h: H)
    requires Dead(s, s.free)
    requires forall i :: InUse(s, i) ==> s.cells[i].handler.Some?
    ensures var (s', _) := Filled(s, h);
            && (forall i :: Dead(s', i) <==> Dead(s, i) && i != s.free)
            && (forall i :: InUse(s', i) ==> s'.cells[i].handler.Some?)
  {
    var s' := Filled(s, h).0;
    forall i ensures Dead(s', i) <==> Dead(s, i) && i != s.free {
    }
    forall i | InUse(s', i) ensures s'.cells[i].handler.Some? {
      assert i == s.free || InUse(s, i);
    }
  }

  lemma PutReuses<H>(s: State<H>, chain: seq<int>, h: H)
    requires FreeList(s, chain) && chain != []
    ensures FreeList(Filled(s, h).0, chain[1..])
  {
    LinksAfterPut(s, chain, h);
    hide Next, Distinct, InUse, Dead, Filled;
    RestOf(chain);
    SlotsAfterPut(s, h);
  }

  /** Pop of an id in use forgets that handler and no other. */
  lemma PopRefines<H>(s: State<H>, chain: seq<int>, i: int)
    requires FreeList(s, chain) && InUse(s, i)
    ensures i in Held(s) && Held(Freed(s, i)) == Held(s) - {i}
    ensures FreeList(Freed(s, i), [i] + chain)
  {
    hide FreeList;
    PopLinks(s, chain, i);
  }

  lemma PopLinks<H>(s: State<H>, chain: seq<int>, i: int)
    requires FreeList(s, chain) && InUse(s, i)
    ensures FreeList(Freed(s, i), [i] + chain)
  {
    var s', longer := Freed(s, i), [i] + chain;
    forall k | 0 <= k < |chain| ensures longer[k + 1] == chain[k] && chain[k] != i {
      assert Dead(s, chain[k]);
    }
    forall j ensures Dead(s', j) <==> j in longer {
      if j != i && Dead(s', j) {
        assert j in chain;
      }
    }
    forall k | 0 <= k < |longer|
      ensures Dead(s', longer[k]) && s'.cells[longer[k]].index == Next(longer, k, |s'.cells|)
    {
      if k > 0 {
        assert longer[k] == chain[k - 1] && Dead(s, chain[k - 1]);
      }
    }
  }

  /** After a second Pop of a slot at position p of the free list, the list runs back to it. */
  lemma {:induction false} ListRunsBack<H>(s: State<H>, chain: seq<int>, p: nat, other: seq<int>, k: nat)
    requires FreeList(s, chain) && k <= p < |chain|
    requires FreeList(Freed(s, chain[p]), other)
    ensures k + 1 < |other| && other[k + 1] == chain[k]
  {
    var s' := Freed(s, chain[p]);
    assert Dead(s, chain[p]) && Dead(s, chain[k]);
    assert other != [] && other[0] == chain[p];
    if k > 0 {
      ListRunsBack(s, chain, p, other, k - 1);
      assert chain[k - 1] != chain[p];
      assert s'.cells[other[k]].index == s.cells[chain[k - 1]].index == chain[k];
    } else {
      assert s'.cells[other[0]].index == chain[0];
    }
  }

  /** Pop keeps the free list in order exactly when the id is in use. */
  lemma PopIff<H>(s: State<H>, chain: seq<int>, i: int)
    requires FreeList(s, chain) && 0 <= i < |s.cells|
    ensures (exists other :: FreeList(Freed(s, i), other)) <==> InUse(s, i)
  {
    if InUse(s, i) {
      PopRefines(s, chain, i);
    } else {
      assert Dead(s, i);
      var p :| 0 <= p < |chain| && chain[p] == i;
      forall other | FreeList(Freed(s, i), other) ensures false {
        ListRunsBack(s, chain, p, other, p);
      }
    }
  }

  /** What goes wrong: after popping one id twice, Put hands the same id out twice. */
  lemma DoublePop(a: nat, b: nat)
    ensures var s := Freed(Freed(Filled(State([], 0), a).0, 0), 0);
            Filled(s, a).1 == 0 && Filled(Filled(s, a).0, b).1 == 0
  {
  }

  // Runs.

  datatype Op<H> = Add(h: H) | Remove(id: int)

  /** A Put, or a Pop of an id in use; nothing else is allowed to happen. */
  function Apply<H>(s: State<H>, op: Op<H>): State<H> {
    match op
    case Add(h) => if 0 <= s.free <= |s.cells| then Filled(s, h).0 else s
    case Remove(id) => if InUse(s, id) then Freed(s, id) else s
  }

  function Run<H>(ops: seq<Op<H>>): State<H> {
    if ops == [] then State([], 0) else Apply(Run(ops[..|ops| - 1]), ops[|ops| - 1])
  }

  lemma {:induction false} RunHasFreeList<H>(ops: seq<Op<H>>) returns (chain: seq<int>)
    ensures FreeList(Run(ops), chain)
  {
    if ops == [] {
      chain := [];
    } else {
      var s := Run(ops[..|ops| - 1]);
      chain := RunHasFreeList(ops[..|ops| - 1]);
      match ops[|ops| - 1]
      case Add(h) =>
        PutRefines(s, chain, h);
        chain := if chain == [] then [] else chain[1..];
      case Remove(id) =>
        if InUse(s, id) {
          PopRefines(s, chain, id);
          chain := [id] + chain;
        }
    }
  }

  /** The map that the slab stands for, after one more operation. */
  function Expected<H>(m: map<int, Option<H>>, op: Op<H>, id: int): map<int, Option<H>> {
    match op
    case Add(h) => m[id := Some(h)]
    case Remove(i) => m - {i}
  }

  /** In every run each Put hands out an id not in use, and the slab is a finite map from the ids
      in use to their handlers. */
  lemma RunRefinesMap<H>(ops: seq<Op<H>>, op: Op<H>)
    requires op.Remove? ==> InUse(Run(ops), op.id)
    ensures var s := Run(ops);
            && 0 <= s.free <= |s.cells|
            && (op.Add? ==> Filled(s, op.h).1 !in Held(s))
            && Held(Run(ops + [op])) == Expected(Held(s), op, if op.Add? then Filled(s, op.h).1 else 0)
  {
    var s := Run(ops);
    var chain := RunHasFreeList(ops);
    assert (ops + [op])[..|ops|] == ops;
    match op
    case Add(h) => PutRefines(s, chain, h);
    case Remove(id) =>
      PopRefines(s, chain, id);
      if chain != [] {
        assert Dead(s, chain[0]);
      }
  }
}
