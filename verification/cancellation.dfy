// One bucket's lock when contexts are cancelled (api/rate/rate.go, internal/moreatomic/mutex.go): a request
// whose Acquire gave up calls Release all the same.

module Cancellation {
  /** How far one attempt is; it holds the lock while it waits inside Acquire and until its Release. */
  datatype Phase = Queued | Waiting | Acquired | GaveUp | Done

  datatype State = State(full: bool, phases: map<nat, Phase>)

  datatype Step =
    | Begin(id: nat)
    | Lock(id: nat)
    | Pass(id: nat)      // Acquire returns, with or without a refusal
    | GiveUp(id: nat)    // the context is cancelled in Lock or in the wait
    | Release(id: nat)

  function Apply(s: State, step: Step): State {
    match step
    case Begin(id) => if id in s.phases then s else s.(phases := s.phases[id := Queued])
    case Lock(id) => if Is(s, id, Queued) && !s.full then State(true, s.phases[id := Waiting]) else s
    case Pass(id) => if Is(s, id, Waiting) then s.(phases := s.phases[id := Acquired]) else s
    case GiveUp(id) =>
      if Is(s, id, Queued) then s.(phases := s.phases[id := GaveUp])
      else if Is(s, id, Waiting) then State(false, s.phases[id := GaveUp])
      else s
    case Release(id) =>
      // TryUnlock, whoever has the lock.
      if Is(s, id, Acquired) || Is(s, id, GaveUp) then State(false, s.phases[id := Done]) else s
  }

  predicate Is(s: State, id: nat, p: Phase) {
    id in s.phases && s.phases[id] == p
  }

  predicate Holds(s: State, id: nat) {
    Is(s, id, Waiting) || Is(s, id, Acquired)
  }

  /** The lock is taken exactly when one attempt holds it, and never by two. */
  ghost predicate Exclusive(s: State) {
    && (s.full <==> exists id :: Holds(s, id))
    && forall i, j :: Holds(s, i) && Holds(s, j) ==> i == j
  }

  /** The Release of an attempt that gave up finds the lock taken by another one. */
  predicate Steals(s: State, step: Step) {
    step.Release? && Is(s, step.id, GaveUp) && s.full
  }

  /** A step that leaves the holders alone keeps the lock exclusive exactly when it leaves the lock alone. */
  lemma SameHolders(s: State, s': State)
    requires Exclusive(s) && forall i :: Holds(s', i) <==> Holds(s, i)
    ensures Exclusive(s') <==> s'.full == s.full
  {
    if s.full {
      var i :| Holds(s, i);
      assert Holds(s', i);
    }
  }

  lemma LockTaken(s: State, id: nat)
    requires Exclusive(s) && Is(s, id, Queued) && !s.full
    ensures Exclusive(Apply(s, Lock(id)))
  {
    var s' := Apply(s, Lock(id));
    assert Holds(s', id);
    forall i | Holds(s', i) ensures i == id {
      assert i != id ==> Holds(s, i);
    }
  }

  lemma LockGivenBack(s: State, id: nat, p: Phase)
    requires Exclusive(s) && Holds(s, id) && p in {GaveUp, Done}
    ensures Exclusive(State(false, s.phases[id := p]))
  {
    var s' := State(false, s.phases[id := p]);
    forall i ensures !Holds(s', i) {
      assert i != id && Holds(s', i) ==> Holds(s, i);
    }
  }

  /** A step keeps the lock exclusive if and only if it does not free another attempt's lock. */
  lemma KeepsExclusiveIff(s: State, step: Step)
    requires Exclusive(s)
    ensures Exclusive(Apply(s, step)) <==> !Steals(s, step)
  {
    hide Exclusive;
    if step.Lock? && Is(s, step.id, Queued) && !s.full {
      LockTaken(s, step.id);
    } else if step.GiveUp? && Is(s, step.id, Waiting) {
      LockGivenBack(s, step.id, GaveUp);
    } else if step.Release? && Is(s, step.id, Acquired) {
      LockGivenBack(s, step.id, Done);
    } else {
      SameHolders(s, Apply(s, step));
    }
  }

  ghost predicate TwoHold(s: State) {
    exists i, j :: i != j && Holds(s, i) && Holds(s, j)
  }

  function Run(s: State, steps: seq<Step>): State {
    if steps == [] then s else Apply(Run(s, steps[..|steps| - 1]), steps[|steps| - 1])
  }

  /** Some step of the run frees another attempt's lock. */
  predicate StealsIn(s: State, steps: seq<Step>) {
    steps != []
    && (StealsIn(s, steps[..|steps| - 1]) || Steals(Run(s, steps[..|steps| - 1]), steps[|steps| - 1]))
  }

  /** Without such a step the lock is exclusive throughout. */
  lemma {:induction false} RunExclusive(steps: seq<Step>)
    requires !StealsIn(State(false, map[]), steps)
    ensures Exclusive(Run(State(false, map[]), steps))
  {
    if steps != [] {
      RunExclusive(steps[..|steps| - 1]);
      KeepsExclusiveIff(Run(State(false, map[]), steps[..|steps| - 1]), steps[|steps| - 1]);
    }
  }

  lemma OneMore(s: State, steps: seq<Step>, step: Step)
    ensures Run(s, steps + [step]) == Apply(Run(s, steps), step)
  {
    assert (steps + [step])[..|steps|] == steps;
  }

  /** From any exclusive state, a Release lets the next request in beside another holder, right away, if and
      only if it is that of an attempt that gave up while the lock is taken. */
  lemma SecondHolderIff(s: State, id: nat, next: nat)
    requires Exclusive(s) && id in s.phases && next !in s.phases
    ensures TwoHold(Run(s, [Release(id)] + [Begin(next)] + [Lock(next)])) <==> Steals(s, Release(id))
  {
    var s1 := Apply(s, Release(id));
    var s3 := Apply(Apply(s1, Begin(next)), Lock(next));
    assert Run(s, []) == s;
    OneMore(s, [], Release(id));
    assert [] + [Release(id)] == [Release(id)];
    OneMore(s, [Release(id)], Begin(next));
    OneMore(s, [Release(id)] + [Begin(next)], Lock(next));
    KeepsExclusiveIff(s, Release(id));
    if Steals(s, Release(id)) {
      var i :| Holds(s, i);
      assert Holds(s3, i) && Holds(s3, next) && i != next;
    } else {
      KeepsExclusiveIff(s1, Begin(next));
      KeepsExclusiveIff(Apply(s1, Begin(next)), Lock(next));
    }
  }

  /** From any exclusive state, whoever has the lock can finish and pass it on to any attempt that is queued. */
  lemma LockIsPassedOn(s: State, next: nat) returns (holder: nat)
    requires Exclusive(s) && s.full && Is(s, next, Queued)
    ensures Holds(s, holder) && holder != next
    ensures var s' := Run(s, [Pass(holder)] + [Release(holder)] + [Lock(next)]);
            Exclusive(s') && s'.full && Is(s', holder, Done) && Is(s', next, Waiting)
  {
    holder :| Holds(s, holder);
    assert Run(s, []) == s && [] + [Pass(holder)] == [Pass(holder)];
    OneMore(s, [], Pass(holder));
    OneMore(s, [Pass(holder)], Release(holder));
    OneMore(s, [Pass(holder)] + [Release(holder)], Lock(next));
    var s1 := Apply(s, Pass(holder));
    KeepsExclusiveIff(s, Pass(holder));
    KeepsExclusiveIff(s1, Release(holder));
    KeepsExclusiveIff(Apply(s1, Release(holder)), Lock(next));
  }

  /** A run: request 0 has the lock, request 1 gives up waiting for it and releases, and 2 gets in beside 0. */
  lemma TwoHoldersAreReached()
    ensures TwoHold(Run(State(false, map[]), [Begin(0), Lock(0), Begin(1), GiveUp(1), Release(1), Begin(2), Lock(2)]))
  {
    var steps := [Begin(0)] + [Lock(0)] + [Begin(1)] + [GiveUp(1)] + [Release(1)] + [Begin(2)] + [Lock(2)];
    Reached(steps);
    assert steps == [Begin(0), Lock(0), Begin(1), GiveUp(1), Release(1), Begin(2), Lock(2)];
  }

  lemma Reached(steps: seq<Step>)
    requires steps == [Begin(0)] + [Lock(0)] + [Begin(1)] + [GiveUp(1)] + [Release(1)] + [Begin(2)] + [Lock(2)]
    ensures TwoHold(Run(State(false, map[]), steps))
  {
    hide Run;
    var s0 := State(false, map[]);
    assert Run(s0, []) == s0 by { NothingRun(s0); }
    assert [] + [Begin(0)] == [Begin(0)];
    OneMore(s0, [], Begin(0));
    OneMore(s0, [Begin(0)], Lock(0));
    OneMore(s0, [Begin(0)] + [Lock(0)], Begin(1));
    OneMore(s0, [Begin(0)] + [Lock(0)] + [Begin(1)], GiveUp(1));
    OneMore(s0, [Begin(0)] + [Lock(0)] + [Begin(1)] + [GiveUp(1)], Release(1));
    OneMore(s0, [Begin(0)] + [Lock(0)] + [Begin(1)] + [GiveUp(1)] + [Release(1)], Begin(2));
    OneMore(s0, [Begin(0)] + [Lock(0)] + [Begin(1)] + [GiveUp(1)] + [Release(1)] + [Begin(2)], Lock(2));
    var s := Run(s0, steps);
    assert Holds(s, 0) && Holds(s, 2);
  }

  lemma NothingRun(s: State)
    ensures Run(s, []) == s
  {
  }
}
