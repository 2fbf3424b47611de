// The default message store (state/store/defaultstore/message.go), one channel at a time.

module MessageStore {
  import opened Machine
  import opened Service

  datatype Body = Body(guildID: uint64, content: string)
  type Message = Item<Body>

  /** The millisecond a snowflake was made in; the epoch does not matter for comparisons. */
  function Time(id: uint64): nat {
    id / 0x40_0000
  }

  lemma TimeIsMonotone(a: uint64, b: uint64)
    requires a <= b
    ensures Time(a) <= Time(b)
  {
  }

  /** The two messages differ in the guild id at most, which the REST service leaves out. */
  predicate Same(a: Message, b: Message) {
    a.id == b.id && a.body.content == b.body.content
  }

  /** The cached messages are the newest ones of the channel, newest first. */
  ghost predicate NewestPrefix(c: seq<Message>, h: seq<Message>) {
    |c| <= |h| && forall k :: 0 <= k < |c| ==> Same(c[k], h[k])
  }

  /** The message is already among the leading messages of its own millisecond. */
  ghost predicate InFrontRun(target: Message, ms: seq<Message>) {
    exists i :: 0 <= i < |ms| && ms[i].id == target.id
                && forall j :: 0 <= j < i ==> Time(ms[j].id) == Time(target.id)
  }

  ghost predicate InBackRun(target: Message, ms: seq<Message>) {
    exists i :: 0 <= i < |ms| && ms[i].id == target.id
                && forall j :: i < j < |ms| ==> Time(ms[j].id) == Time(target.id)
  }

  /** Where messageInsertPosition puts a message: -1 in front, 1 at the end, 0 nowhere. */
  ghost function Position(target: Message, ms: seq<Message>): int
    requires ms != []
  {
    var t, first, last := Time(target.id), Time(ms[0].id), Time(ms[|ms| - 1].id);
    if t > first then -1
    else if t < last then 1
    else if t == first then if InFrontRun(target, ms) then 0 else -1
    else if t == last then if InBackRun(target, ms) then 0 else 1
    else 0
  }

  method InsertPosition(target: Message, ms: seq<Message>) returns (position: int)
    requires ms != []
    ensures position == Position(target, ms)
  {
    var t, first, last := Time(target.id), Time(ms[0].id), Time(ms[|ms| - 1].id);
    if t > first {
      return -1;
    } else if t < last {
      return 1;
    }
    if t == first {
      var i := 0;
      while i < |ms| && t == Time(ms[i].id)
        invariant 0 <= i <= |ms|
        invariant forall j :: 0 <= j < i ==> Time(ms[j].id) == t && ms[j].id != target.id
      {
        if ms[i].id == target.id {
          return 0;
        }
        i := i + 1;
      }
      return -1;
    } else if t == last {
      var i := |ms| - 1;
      while i >= 0 && t == Time(ms[i].id)
        invariant -1 <= i < |ms|
        invariant forall j :: i < j < |ms| ==> Time(ms[j].id) == t && ms[j].id != target.id
      {
        if ms[i].id == target.id {
          return 0;
        }
        i := i - 1;
      }
      return 1;
    }
    return 0;
  }

  /** The channel's messages after MessageSet(m, false). */
  ghost function Inserted(c: seq<Message>, m: Message, max: int): (r: seq<Message>)
    requires |c| <= max
    ensures |r| <= Max(max, 0)
  {
    if max <= 0 then c else
    var ms := if c == [] then [m] else c;
    var p := Position(m, ms);
    if p < 0 then (if |ms| == max then [m] + ms[..|ms| - 1] else [m] + ms)
    else if p > 0 && |ms| < max then ms + [m]
    else ms
  }

  /** DiffMessage on what is modelled of a message: an empty content does not overwrite. */
  function Diffed(from: Message, to: Message): Message {
    if from.body.content != "" then to.(body := to.body.(content := from.body.content)) else to
  }

  /** The channel's messages after MessageSet(m, true): the one with m's id is updated, if it is there. */
  function Updated(c: seq<Message>, m: Message): (r: seq<Message>)
    ensures |r| == |c|
  {
    if c == [] then []
    else if c[0].id == m.id then [Diffed(m, c[0])] + c[1..]
    else [c[0]] + Updated(c[1..], m)
  }

  lemma {:induction false} UpdatedAt(c: seq<Message>, m: Message, i: nat)
    requires forall j :: 0 <= j < i && j < |c| ==> c[j].id != m.id
    ensures i >= |c| ==> Updated(c, m) == c
    ensures i < |c| && c[i].id == m.id ==> Updated(c, m) == c[i := Diffed(m, c[i])]
  {
    if c != [] && i > 0 {
      assert c[0].id != m.id;
      UpdatedAt(c[1..], m, i - 1);
    }
  }

  class Store {
    const maxMsgs: int
    var channels: map<uint64, seq<Message>>

    constructor (max: int)
      ensures maxMsgs == max && channels == map[]
    {
      maxMsgs := max;
      channels := map[];
    }

    function Messages(channel: uint64): seq<Message>
      reads this
    {
      if channel in channels then channels[channel] else []
    }

    method MessageSet(channel: uint64, m: Message, update: bool)
      requires |Messages(channel)| <= maxMsgs
      modifies this
      ensures Messages(channel)
              == if !update then Inserted(old(Messages(channel)), m, maxMsgs)
                 else if maxMsgs > 0 then Updated(old(Messages(channel)), m)
                 else old(Messages(channel))
      ensures |Messages(channel)| <= maxMsgs
      ensures forall other :: other != channel ==> Messages(other) == old(Messages(other))
    {
      if maxMsgs <= 0 {
        return;
      }
      var ms := Messages(channel);
      if update {
        var i := 0;
        while i < |ms|
          invariant 0 <= i <= |ms|
          invariant Messages(channel) == old(Messages(channel)) == ms
          invariant forall other :: other != channel ==> Messages(other) == old(Messages(other))
          invariant forall j :: 0 <= j < i ==> ms[j].id != m.id
        {
          UpdatedAt(ms, m, i);
          if ms[i].id == m.id {
            channels := channels[channel := ms[i := Diffed(m, ms[i])]];
            return;
          }
          i := i + 1;
        }
        UpdatedAt(ms, m, i);
        return;
      }
      if |ms| == 0 {
        ms := [m];
      }
      var position := InsertPosition(m, ms);
      if position < 0 {
        if |ms| == maxMsgs {
          ms := [m] + ms[..|ms| - 1];
        } else {
          ms := [m] + ms;
        }
      } else if position > 0 && |ms| < maxMsgs {
        ms := ms + [m];
      }
      channels := channels[channel := ms];
    }
  }

  /** Setting a message that is cached already changes nothing. */
  lemma InsertDuplicate(c: seq<Message>, m: Message, k: nat, max: int)
    requires NewestFirst(c) && |c| <= max && k < |c| && c[k].id == m.id
    ensures Inserted(c, m, max) == c
  {
    TimeIsMonotone(m.id, c[0].id);
    TimeIsMonotone(c[|c| - 1].id, m.id);
    if Time(m.id) == Time(c[0].id) {
      forall j | 0 <= j < k ensures Time(c[j].id) == Time(m.id) {
        TimeIsMonotone(c[k].id, c[j].id);
        TimeIsMonotone(c[j].id, c[0].id);
      }
      assert InFrontRun(m, c);
    } else if Time(m.id) == Time(c[|c| - 1].id) {
      forall j | k < j < |c| ensures Time(c[j].id) == Time(m.id) {
        TimeIsMonotone(c[j].id, c[k].id);
        TimeIsMonotone(c[|c| - 1].id, c[j].id);
      }
      assert InBackRun(m, c);
    }
  }

  /** Setting an older message appends it, unless it was made in the same millisecond as the
      newest cached one: then it is put in front of it. */
  lemma InsertOlder(c: seq<Message>, m: Message, max: int)
    requires NewestFirst(c) && 0 < |c| < max && m.id < c[|c| - 1].id
    ensures Inserted(c, m, max) == if Time(m.id) == Time(c[0].id) then [m] + c else c + [m]
  {
    TimeIsMonotone(m.id, c[|c| - 1].id);
    TimeIsMonotone(c[|c| - 1].id, c[0].id);
    assert forall i :: 0 <= i < |c| ==> c[i].id != m.id;
  }

  /**
   What setting a message does to the ordered cache of a channel, whatever its id. Only milliseconds count, that is
   ids divided by 4194304: a message as new as the newest one is put in front, and the oldest one falls off a full
   cache; one as old as the oldest is appended if there is room; and one that is cached already, or in between, or
   too old for a full cache, changes nothing.
   */
  lemma InsertedIs(c: seq<Message>, m: Message, max: int)
    requires NewestFirst(c) && |c| <= max
    ensures Inserted(c, m, max)
            == if max <= 0 || exists k :: 0 <= k < |c| && c[k].id == m.id then c
               else if c == [] then [m]
               else if m.id / 0x40_0000 >= c[0].id / 0x40_0000 then [m] + c[..if |c| < max then |c| else max - 1]
               else if m.id / 0x40_0000 <= c[|c| - 1].id / 0x40_0000 && |c| < max then c + [m]
               else c
  {
    if k :| 0 <= k < |c| && c[k].id == m.id {
      InsertDuplicate(c, m, k, max);
    } else if c == [] && max > 0 {
      assert [m][0].id == m.id;
    } else if c != [] {
      TimeIsMonotone(c[|c| - 1].id, c[0].id);
      assert c[..|c|] == c;
    }
  }

  /** Whatever is set, the newest message stays in front unless a message of its millisecond or
      a later one is put there. */
  lemma InsertKeepsForeignHead(c: seq<Message>, m: Message, id: uint64, max: int)
    requires 0 < |c| <= max && c[0].id != id && m.id != id
    ensures Inserted(c, m, max) != [] && Inserted(c, m, max)[0].id != id
  {
  }

  /** The store after setting the messages one by one. */
  ghost function WriteBack(c: seq<Message>, ms: seq<Message>, max: int): (r: seq<Message>)
    requires |c| <= max
    ensures |r| <= max
  {
    if ms == [] then c else Inserted(WriteBack(c, ms[..|ms| - 1], max), ms[|ms| - 1], max)
  }

  lemma WriteNothing(c: seq<Message>, max: int)
    requires |c| <= max
    ensures WriteBack(c, [], max) == c
  {
  }

  /** One of the messages lo..hi shares its millisecond with the newest message. */
  ghost predicate Clash(h: seq<Message>, lo: nat, hi: nat)
    requires hi <= |h|
  {
    exists k :: lo <= k < hi && k > 0 && Time(h[k].id) == Time(h[0].id)
  }

  lemma NoClash(h: seq<Message>, lo: nat, hi: nat)
    requires hi <= lo && hi <= |h|
    ensures !Clash(h, lo, hi)
  {
  }

  lemma ClashStep(h: seq<Message>, lo: nat, hi: nat)
    requires hi < |h|
    ensures Clash(h, lo, hi + 1)
            <==> Clash(h, lo, hi) || (lo <= hi && hi > 0 && Time(h[hi].id) == Time(h[0].id))
    ensures Clash(h, lo, hi) ==> hi > 0
  {
  }

  /** Setting the message at position b when exactly the newer ones, or more, are cached. */
  lemma InsertNext(w: seq<Message>, h: seq<Message>, b: nat, m: Message, max: int)
    requires NewestFirst(h) && NewestPrefix(w, h) && b <= |w| <= max
    requires b < max && b < |h| && Same(m, h[b])
    ensures var r := Inserted(w, m, max);
            if b < |w| then r == w
            else if b > 0 && Time(h[b].id) == Time(h[0].id) then r != [] && r[0].id != h[0].id
            else NewestPrefix(r, h) && |r| == b + 1
  {
    assert forall i :: 0 <= i < |w| ==> w[i].id == h[i].id;
    if b < |w| {
      InsertDuplicate(w, m, b, max);
    } else if b > 0 {
      InsertOlder(w, m, max);
    } else {
      InsertDuplicate([m], m, 0, max);
    }
  }

  lemma HeadDiffers(c: seq<Message>, h: seq<Message>)
    ensures c != [] && (h == [] || c[0].id != h[0].id) ==> !NewestPrefix(c, h)
    ensures NewestPrefix(c, h) && c != [] ==> h != [] && c[0].id == h[0].id
  {
  }

  /** How far writing back has come: in order exactly when there was no clash so far. */
  ghost predicate Written(w: seq<Message>, h: seq<Message>, lo: nat, hi: nat)
    requires hi <= |h|
  {
    if Clash(h, lo, hi) then w != [] && h != [] && w[0].id != h[0].id
    else NewestPrefix(w, h) && |w| == Max(lo, hi)
  }

  lemma WriteOne(w: seq<Message>, h: seq<Message>, lo: nat, b: nat, m: Message, max: int)
    requires NewestFirst(h) && b < |h| && b < max && |w| <= max && Same(m, h[b])
    requires Written(w, h, lo, b)
    ensures Written(Inserted(w, m, max), h, lo, b + 1)
  {
    assert h[b].id == h[0].id ==> b == 0;
    hide Inserted, Clash, NewestFirst, NewestPrefix;
    ClashStep(h, lo, b);
    if Clash(h, lo, b) {
      InsertKeepsForeignHead(w, m, h[0].id, max);
    } else {
      InsertNext(w, h, b, m, max);
      HeadDiffers(Inserted(w, m, max), h);
    }
  }

  lemma {:induction false} WriteAll(c: seq<Message>, h: seq<Message>, a: nat, ms: seq<Message>, max: int)
    requires NewestFirst(h) && NewestPrefix(c, h) && a <= |c| <= max
    requires a + |ms| <= |h| && a + |ms| <= max
    requires forall j :: 0 <= j < |ms| ==> Same(ms[j], h[a + j])
    ensures Written(WriteBack(c, ms, max), h, |c|, a + |ms|)
  {
    hide Inserted, Clash, NewestFirst, NewestPrefix, Same;
    if ms == [] {
      NoClash(h, |c|, a);
    } else {
      var init := ms[..|ms| - 1];
      WriteAll(c, h, a, init, max);
      WriteOne(WriteBack(c, init, max), h, |c|, a + |init|, ms[|init|], max);
    }
  }

  /** Writing the messages a.. of the channel to a cache that holds its newest ones keeps the cache
      in order exactly when no written message shares its millisecond with the newest. */
  lemma WriteBackIff(c: seq<Message>, h: seq<Message>, a: nat, ms: seq<Message>, max: int)
    requires NewestFirst(h) && NewestPrefix(c, h) && a <= |c| <= max
    requires a + |ms| <= |h| && a + |ms| <= max
    requires forall j :: 0 <= j < |ms| ==> Same(ms[j], h[a + j])
    ensures NewestPrefix(WriteBack(c, ms, max), h) <==> !Clash(h, |c|, a + |ms|)
    ensures !Clash(h, |c|, a + |ms|) ==> |WriteBack(c, ms, max)| == Max(|c|, a + |ms|)
    ensures Clash(h, |c|, a + |ms|) ==> WriteBack(c, ms, max) != [] && WriteBack(c, ms, max)[0].id != h[0].id
  {
    hide WriteBack, Clash, NewestFirst, NewestPrefix;
    WriteAll(c, h, a, ms, max);
    HeadDiffers(WriteBack(c, ms, max), h);
  }
}
