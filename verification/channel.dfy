// A channel over time: messages are created and edited in gateway events (state/state_events.go) while
// State.Messages (state/state.go) is called any number of times.

module ChannelRuns {
  import opened Machine
  import opened MessageStore
  import opened Optional
  import opened Paging
  import opened Service
  import opened Slices
  import opened StateMessages

  /** What stays the same: the channel's guild (0: none), the session's intents, the store's size. */
  datatype Setting = Setting(guild: uint64, guildIntent: bool, dmIntent: bool, max: nat) {
    /** Whether the session is kept up to date about the channel. */
    predicate Tracked() {
      Covers(guild, guildIntent, dmIntent)
    }
  }

  /** The channel on the server, the cached messages, and whether it is marked as tiny. */
  datatype Channel = Channel(h: seq<Message>, cached: seq<Message>, tiny: bool)

  /** A new message or an edit to a new content, empty or not, with its event, or a call of
      State.Messages, which finds the channel's guild. */
  datatype Step =
    | Arrive(id: uint64, content: string)
    | Edit(id: uint64, content: string)
    | Call(limit: nat, outage: nat)

  /** The channel on the server after an edit. */
  function Edited(h: seq<Message>, id: uint64, content: string): (r: seq<Message>)
    ensures |r| == |h|
    ensures forall i :: 0 <= i < |h| ==>
              r[i] == if h[i].id == id then h[i].(body := h[i].body.(content := content)) else h[i]
  {
    seq(|h|, i requires 0 <= i < |h| =>
      if h[i].id == id then h[i].(body := h[i].body.(content := content)) else h[i])
  }

  ghost function Reply(s: Setting, c: Channel, limit: nat, outage: nat): Outcome
    requires |c.cached| <= s.max
  {
    Answer(c.cached, c.tiny, s.guildIntent, s.dmIntent, s.max, c.h, outage, Some(s.guild), limit)
  }

  ghost function Apply(s: Setting, c: Channel, step: Step): Channel
    requires |c.cached| <= s.max
  {
    match step
    case Arrive(id, content) =>
      if id == 0 || (c.h != [] && id <= c.h[0].id) then c
      else
        var m := Item(id, Body(s.guild, content));
        c.(h := [m] + c.h, cached := Inserted(c.cached, m, s.max))
    case Edit(id, content) =>
      var m := Item(id, Body(s.guild, content));
      c.(h := Edited(c.h, id, content), cached := if s.max > 0 then Updated(c.cached, m) else c.cached)
    case Call(limit, outage) =>
      var o := Reply(s, c, limit, outage);
      c.(cached := WriteBack(c.cached, o.writes, s.max), tiny := c.tiny || o.marks)
  }

  ghost function Run(s: Setting, steps: seq<Step>): (c: Channel)
    ensures |c.cached| <= s.max
  {
    if steps == [] then Channel([], [], false) else Apply(s, Run(s, steps[..|steps| - 1]), steps[|steps| - 1])
  }

  /** No two messages were made in the same millisecond. */
  ghost predicate DistinctTimes(h: seq<Message>) {
    forall i, j :: 0 <= i < j < |h| ==> Time(h[i].id) != Time(h[j].id)
  }

  ghost predicate InGuild(ms: seq<Message>, guild: uint64) {
    forall i :: 0 <= i < |ms| ==> ms[i].body.guildID == guild
  }

  /** The cache holds the newest messages, and all that fit of a tracked channel marked as tiny. */
  ghost predicate InOrder(s: Setting, c: Channel) {
    && NewestFirst(c.h) && NewestPrefix(c.cached, c.h) && |c.cached| <= s.max && InGuild(c.cached, s.guild)
    && (c.tiny && s.Tracked() ==> |c.cached| == Min(|c.h|, s.max))
  }

  /** A message newer than all others is put in front, and the oldest one falls off a full cache. */
  lemma InsertNew(c: seq<Message>, h: seq<Message>, m: Message, max: nat)
    requires NewestFirst([m] + h) && NewestPrefix(c, h) && |c| <= max
    ensures NewestPrefix(Inserted(c, m, max), [m] + h)
    ensures |Inserted(c, m, max)| == Min(|c| + 1, max)
  {
    hide Position;
    assert forall i :: 0 <= i < |h| ==> ([m] + h)[i + 1] == h[i];
    forall i | 0 <= i < |c| ensures m.id > c[i].id {
      assert ([m] + h)[0].id > ([m] + h)[i + 1].id && Same(c[i], h[i]);
    }
    if c == [] {
      OwnPosition(m);
    } else {
      NewestPosition(m, c);
    }
  }

  lemma OwnPosition(m: Message)
    ensures Position(m, [m]) == 0
  {
    assert [m][0].id == m.id;
  }

  lemma NewestPosition(m: Message, c: seq<Message>)
    requires c != [] && forall i :: 0 <= i < |c| ==> m.id > c[i].id
    ensures Position(m, c) == -1
  {
    TimeIsMonotone(c[0].id, m.id);
    TimeIsMonotone(c[|c| - 1].id, m.id);
    assert forall i :: 0 <= i < |c| ==> c[i].id != m.id;
  }

  lemma InsertInGuild(c: seq<Message>, m: Message, max: nat, guild: uint64)
    requires InGuild(c, guild) && |c| <= max && m.body.guildID == guild
    ensures InGuild(Inserted(c, m, max), guild)
  {
    hide Position;
  }

  lemma {:induction false} WriteBackInGuild(c: seq<Message>, ms: seq<Message>, max: nat, guild: uint64)
    requires InGuild(c, guild) && InGuild(ms, guild) && |c| <= max
    ensures InGuild(WriteBack(c, ms, max), guild)
  {
    hide Inserted;
    if ms != [] {
      WriteBackInGuild(c, ms[..|ms| - 1], max, guild);
      InsertInGuild(WriteBack(c, ms[..|ms| - 1], max), ms[|ms| - 1], max, guild);
    }
  }

  /** With distinct ids, every message is either updated or left alone. */
  lemma {:induction false} UpdatedEach(c: seq<Message>, m: Message)
    requires forall i, j :: 0 <= i < j < |c| ==> c[i].id != c[j].id
    ensures forall i :: 0 <= i < |c| ==> Updated(c, m)[i] == if c[i].id == m.id then Diffed(m, c[i]) else c[i]
  {
    if c != [] {
      if c[0].id != m.id {
        UpdatedEach(c[1..], m);
      }
      assert Updated(c, m)[1..] == if c[0].id == m.id then c[1..] else Updated(c[1..], m);
      assert forall i :: 1 <= i < |c| ==> c[i] == c[1..][i - 1] && Updated(c, m)[i] == Updated(c, m)[1..][i - 1];
    }
  }

  /** An edit of a cached message reaches the cache, unless it empties its content: the store cannot tell
      that from an edit that leaves the content alone. */
  lemma EditIsCachedIff(c: seq<Message>, h: seq<Message>, m: Message)
    requires NewestFirst(h) && NewestPrefix(c, h)
    ensures NewestPrefix(Updated(c, m), Edited(h, m.id, m.body.content))
            <==> m.body.content != "" || !exists i :: 0 <= i < |c| && c[i].id == m.id && c[i].body.content != ""
  {
    forall i, j | 0 <= i < j < |c| ensures c[i].id != c[j].id {
      assert Same(c[i], h[i]) && Same(c[j], h[j]);
    }
    UpdatedEach(c, m);
    var u, e := Updated(c, m), Edited(h, m.id, m.body.content);
    hide NewestFirst, Updated, Edited;
    forall i | 0 <= i < |c|
      ensures Same(u[i], e[i]) <==> !(c[i].id == m.id && c[i].body.content != "" && m.body.content == "")
    {
      assert Same(c[i], h[i]);
    }
    if i :| 0 <= i < |c| && c[i].id == m.id && c[i].body.content != "" && m.body.content == "" {
      assert !Same(u[i], e[i]);
    }
  }

  /** An edit that empties the content of a cached message. */
  predicate LostEdit(c: Channel, step: Step) {
    step.Edit? && step.content == ""
    && exists i :: 0 <= i < |c.cached| && c.cached[i].id == step.id && c.cached[i].body.content != ""
  }

  /** An edit keeps the cache in order exactly when it is not one of these. */
  lemma EditKeepsOrderIff(s: Setting, c: Channel, id: uint64, content: string)
    requires InOrder(s, c)
    ensures InOrder(s, Apply(s, c, Edit(id, content))) <==> !LostEdit(c, Edit(id, content))
  {
    hide Updated, Edited;
    var m := Item(id, Body(s.guild, content));
    EditIsCachedIff(c.cached, c.h, m);
    UpdatedInGuild(c.cached, m, s.guild);
  }

  lemma {:induction false} UpdatedInGuild(c: seq<Message>, m: Message, guild: uint64)
    requires InGuild(c, guild)
    ensures InGuild(Updated(c, m), guild)
  {
    if c != [] {
      UpdatedInGuild(c[1..], m, guild);
      assert forall i :: 0 <= i < |c| ==> c[i].body.guildID == guild;
    }
  }

  lemma ArriveKeepsOrder(s: Setting, c: Channel, id: uint64, content: string)
    requires InOrder(s, c)
    ensures InOrder(s, Apply(s, c, Arrive(id, content)))
  {
    hide Inserted;
    if id != 0 && (c.h == [] || id > c.h[0].id) {
      var m := Item(id, Body(s.guild, content));
      assert NewestFirst([m] + c.h);
      InsertNew(c.cached, c.h, m, s.max);
      InsertInGuild(c.cached, m, s.max, s.guild);
    }
  }

  /** What a call writes is in the channel's guild, and when it marks a tracked channel as tiny
      the cache and what it writes are the whole channel. */
  lemma ReplyWrites(s: Setting, c: Channel, limit: nat, outage: nat)
    requires InOrder(s, c)
    ensures var o := Reply(s, c, limit, outage);
            && InGuild(o.writes, s.guild)
            && (o.marks && s.Tracked() ==> |c.cached| + |o.writes| == |c.h| < s.max)
  {
    hide NewestFirst, NewestPrefix, Merged, Fetched, Tracks, InGuild;
    var used := Usable(c.cached, s.guildIntent, s.dmIntent);
    var fetchLimit := FetchLimit(limit, s.max, |used|);
    UsableWhenTracked(s, c.cached);
    UsablePrefix(c.cached, c.h, s.guildIntent, s.dmIntent, 0);
    FetchContinues(used, c.h, fetchLimit);
    var b := |used| + Taken(|c.h| - |used|, fetchLimit);
    MergedWrites(s, used, c.h[|used|..b], limit);
    NothingInGuild(s.guild);
  }

  lemma NothingInGuild(guild: uint64)
    ensures InGuild([], guild)
  {
  }

  /** A tracked channel's cache is always usable. */
  lemma UsableWhenTracked(s: Setting, cached: seq<Message>)
    requires InGuild(cached, s.guild)
    ensures Usable(cached, s.guildIntent, s.dmIntent) == if s.Tracked() then cached else []
  {
  }

  lemma MergedWrites(s: Setting, used: seq<Message>, api: seq<Message>, limit: nat)
    requires |used| <= s.max && InGuild(used, s.guild)
    ensures var o := Merged(used, api, s.guildIntent, s.dmIntent, s.max, Some(s.guild), limit);
            && InGuild(o.writes, s.guild)
            && (o.marks <==> |used| + |api| < s.max)
            && (o.marks && s.Tracked() ==> |o.writes| == |api|)
  {
  }

  lemma CallKeepsOrder(s: Setting, c: Channel, limit: nat, outage: nat)
    requires InOrder(s, c) && DistinctTimes(c.h)
    ensures InOrder(s, Apply(s, c, Call(limit, outage)))
  {
    hide NewestFirst, NewestPrefix, Answer, WriteBack, Same;
    var o := Reply(s, c, limit, outage);
    var a := |Usable(c.cached, s.guildIntent, s.dmIntent)|;
    WritesContinue(c.cached, c.tiny, s.guildIntent, s.dmIntent, s.max, c.h, outage, Some(s.guild), limit);
    UsablePrefix(c.cached, c.h, s.guildIntent, s.dmIntent, 0);
    WriteBackIff(c.cached, c.h, a, o.writes, s.max);
    ReplyWrites(s, c, limit, outage);
    WriteBackInGuild(c.cached, o.writes, s.max, s.guild);
    UsableWhenTracked(s, c.cached);
  }

  /** No edit of the run empties the content of a message that is cached then. */
  ghost predicate NoLostEdit(s: Setting, steps: seq<Step>) {
    steps == []
    || (NoLostEdit(s, steps[..|steps| - 1]) && !LostEdit(Run(s, steps[..|steps| - 1]), steps[|steps| - 1]))
  }

  lemma {:induction false} RunKeepsOrder(s: Setting, steps: seq<Step>)
    requires DistinctTimes(Run(s, steps).h) && NoLostEdit(s, steps)
    ensures InOrder(s, Run(s, steps))
  {
    hide InOrder, Reply, Inserted, WriteBack, LostEdit;
    if steps == [] {
      NothingYet(s);
    } else {
      var before, step := steps[..|steps| - 1], steps[|steps| - 1];
      var c := Run(s, before);
      assert DistinctTimes(c.h) by { Earlier(s, c, step); }
      RunKeepsOrder(s, before);
      match step
      case Arrive(id, content) => ArriveKeepsOrder(s, c, id, content);
      case Edit(id, content) => EditKeepsOrderIff(s, c, id, content);
      case Call(limit, outage) => CallKeepsOrder(s, c, limit, outage);
    }
  }

  lemma NothingYet(s: Setting)
    ensures InOrder(s, Channel([], [], false))
  {
  }

  lemma Earlier(s: Setting, c: Channel, step: Step)
    requires |c.cached| <= s.max && DistinctTimes(Apply(s, c, step).h)
    ensures DistinctTimes(c.h)
  {
    hide Inserted, WriteBack, Reply, Time, Updated;
    var h := Apply(s, c, step).h;
    if |h| > |c.h| {
      assert forall i :: 0 <= i < |c.h| ==> h[i + 1] == c.h[i];
    } else {
      assert forall i :: 0 <= i < |c.h| ==> h[i].id == c.h[i].id;
    }
  }

  /** The service answers a call: none of its requests goes unanswered, which is so at least if there are as many
      answers as the channel has pages. */
  predicate Answered(s: Setting, c: Channel, limit: nat, outage: nat) {
    !Unanswered(if s.Tracked() then |c.cached| else 0, |c.h|, s.max, outage, limit)
  }

  lemma AnsweredWhenUp(s: Setting, c: Channel, limit: nat, outage: nat)
    requires 100 * outage > |c.h|
    ensures Answered(s, c, limit, outage)
  {
  }

  /** A limited call on a channel in order, off the tiny path. */
  lemma LimitedReply(s: Setting, c: Channel, limit: nat, outage: nat)
    requires InOrder(s, c) && limit > 0 && !(c.tiny && s.Tracked() && c.cached != [])
    ensures var o := Reply(s, c, limit, outage);
            if !Answered(s, c, limit, outage) then o.result.None?
            else o.result.Some? && NewestPrefix(o.result.value, c.h) && |o.result.value| == Min(limit, |c.h|)
  {
    hide NewestFirst, NewestPrefix, Usable, Unanswered;
    UsableWhenTracked(s, c.cached);
    LimitedCall(c.cached, c.tiny, s.guildIntent, s.dmIntent, s.max, c.h, outage, Some(s.guild), limit);
  }

  /** In every run without a lost edit a limited call returns exactly the newest min(limit, n) messages if the
      service answers it, and fails otherwise, unless the channel is tracked, cached and marked as tiny. */
  lemma CallsReturnTheNewest(s: Setting, steps: seq<Step>, limit: nat, outage: nat)
    requires DistinctTimes(Run(s, steps).h) && NoLostEdit(s, steps) && limit > 0
    requires !(Run(s, steps).tiny && s.Tracked() && Run(s, steps).cached != [])
    ensures var c := Run(s, steps); var o := Reply(s, c, limit, outage);
            if !Answered(s, c, limit, outage) then o.result.None?
            else o.result.Some? && NewestPrefix(o.result.value, c.h) && |o.result.value| == Min(limit, |c.h|)
  {
    RunKeepsOrder(s, steps);
    LimitedReply(s, Run(s, steps), limit, outage);
  }

  /** In every run a call marks the channel as tiny, for good, exactly when it has to fetch, is answered, and the
      channel is shorter than the store; nothing else does. */
  lemma TinyIff(s: Setting, steps: seq<Step>, step: Step)
    requires DistinctTimes(Run(s, steps).h)
    ensures var c, c' := Run(s, steps), Run(s, steps + [step]);
            c'.tiny <==>
            || c.tiny
            || (step.Call? && Answered(s, c, step.limit, step.outage) && |c.h| < s.max
                && (step.limit == 0 || (if s.Tracked() then |c.cached| else 0) < step.limit))
  {
    hide NewestFirst, NewestPrefix, Usable, Blank, Reply, Unanswered, Run;
    var c := Run(s, steps);
    OneMoreStep(s, steps, step);
    if step.Call? {
      RunKeepsIds(s, steps);
      BlankReply(s, c, step.limit, step.outage);
      BlankMarks(s, BlankChannel(c), step.limit, step.outage);
    }
  }

  lemma OneMoreStep(s: Setting, steps: seq<Step>, step: Step)
    ensures Run(s, steps + [step]) == Apply(s, Run(s, steps), step)
  {
    assert (steps + [step])[..|steps|] == steps;
  }

  lemma BlankMarks(s: Setting, c: Channel, limit: nat, outage: nat)
    requires InOrder(s, c)
    ensures Reply(s, c, limit, outage).marks
            <==> && !(c.tiny && s.Tracked() && c.cached != []) && Answered(s, c, limit, outage) && |c.h| < s.max
                 && (limit == 0 || (if s.Tracked() then |c.cached| else 0) < limit)
  {
    hide NewestFirst, NewestPrefix, Usable, Unanswered;
    UsableWhenTracked(s, c.cached);
    MarksIff(c.cached, c.tiny, s.guildIntent, s.dmIntent, s.max, c.h, outage, Some(s.guild), limit);
  }

  /** In every such run, once a tracked channel is marked as tiny and has messages, a call returns all of them
      that fit the store, whatever its limit: the law above holds if and only if those are not too many. */
  lemma TinyCallsReturnAllThatFits(s: Setting, steps: seq<Step>, limit: nat, outage: nat)
    requires DistinctTimes(Run(s, steps).h) && NoLostEdit(s, steps) && s.Tracked() && s.max > 0
    requires Run(s, steps).tiny && Run(s, steps).h != []
    ensures var c := Run(s, steps); var o := Reply(s, c, limit, outage);
            && o.result == Some(c.cached) && NewestPrefix(c.cached, c.h) && |c.cached| == Min(|c.h|, s.max)
            && (|c.cached| == Taken(|c.h|, limit)
                <==> limit == s.max || (|c.h| <= s.max && (limit == 0 || |c.h| <= limit)))
  {
    hide NewestFirst, NewestPrefix;
    RunKeepsOrder(s, steps);
    UsableWhenTracked(s, Run(s, steps).cached);
  }

  /** A run with a lost edit: the cache keeps the old content. */
  lemma LostEditIsReached(s: Setting)
    requires s.max > 0
    ensures var c := Run(s, [Arrive(1, "a"), Edit(1, "")]);
            c.h == [Item(1, Body(s.guild, ""))] && c.cached == [Item(1, Body(s.guild, "a"))] && !InOrder(s, c)
  {
    var m := Item(1, Body(s.guild, "a"));
    OwnPosition(m);
    assert Run(s, []) == Channel([], [], false);
    assert [Arrive(1, "a")][..0] == [] && [Arrive(1, "a"), Edit(1, "")][..1] == [Arrive(1, "a")];
    var c := Run(s, [Arrive(1, "a")]);
    assert c == Channel([m], [m], false);
    assert Updated([m], Item(1, Body(s.guild, ""))) == [m];
    assert !Same(m, Item(1, Body(s.guild, "")));
  }

  // What every edit leaves alone: the messages without their contents.

  function Blanked(m: Message): Message {
    m.(body := m.body.(content := ""))
  }

  function Blank(ms: seq<Message>): (r: seq<Message>)
    ensures |r| == |ms|
    ensures forall i :: 0 <= i < |ms| ==> r[i] == Blanked(ms[i])
  {
    seq(|ms|, i requires 0 <= i < |ms| => Blanked(ms[i]))
  }

  function BlankChannel(c: Channel): Channel {
    Channel(Blank(c.h), Blank(c.cached), c.tiny)
  }

  /** Where a message goes depends on ids only. */
  lemma RunsByIds(m: Message, ms: seq<Message>, m': Message, ms': seq<Message>)
    requires m'.id == m.id && |ms'| == |ms| && forall i :: 0 <= i < |ms| ==> ms'[i].id == ms[i].id
    ensures InFrontRun(m, ms) ==> InFrontRun(m', ms')
    ensures InBackRun(m, ms) ==> InBackRun(m', ms')
  {
    hide Time;
    if InFrontRun(m, ms) {
      var i :| 0 <= i < |ms| && ms[i].id == m.id && forall j :: 0 <= j < i ==> Time(ms[j].id) == Time(m.id);
      assert ms'[i].id == m'.id;
    }
    if InBackRun(m, ms) {
      var i :| 0 <= i < |ms| && ms[i].id == m.id && forall j :: i < j < |ms| ==> Time(ms[j].id) == Time(m.id);
      assert ms'[i].id == m'.id;
    }
  }

  lemma BlankPosition(m: Message, ms: seq<Message>)
    requires ms != []
    ensures Position(Blanked(m), Blank(ms)) == Position(m, ms)
  {
    hide Time, Blank, InFrontRun, InBackRun;
    RunsByIds(m, ms, Blanked(m), Blank(ms));
    RunsByIds(Blanked(m), Blank(ms), m, ms);
  }

  lemma BlankInserted(c: seq<Message>, m: Message, max: nat)
    requires |c| <= max
    ensures Blank(Inserted(c, m, max)) == Inserted(Blank(c), Blanked(m), max)
  {
    hide Position, Blank;
    var ms := if c == [] then [m] else c;
    BlankPosition(m, ms);
    assert Blank(ms) == if c == [] then [Blanked(m)] else Blank(c);
  }

  lemma {:induction false} BlankWriteBack(c: seq<Message>, ms: seq<Message>, max: nat)
    requires |c| <= max
    ensures Blank(WriteBack(c, ms, max)) == WriteBack(Blank(c), Blank(ms), max)
  {
    hide Inserted, Blank;
    if ms != [] {
      BlankWriteBack(c, ms[..|ms| - 1], max);
      BlankInserted(WriteBack(c, ms[..|ms| - 1], max), ms[|ms| - 1], max);
      assert Blank(ms)[..|ms| - 1] == Blank(ms[..|ms| - 1]);
    }
  }

  lemma {:induction false} BlankUpdated(c: seq<Message>, m: Message)
    ensures Blank(Updated(c, m)) == Blank(c)
  {
    if c != [] && c[0].id != m.id {
      BlankUpdated(c[1..], m);
      assert forall i :: 1 <= i < |c| ==> Blank(c)[i] == Blank(c[1..])[i - 1];
    }
  }

  lemma {:induction false} BlankAbove(h: seq<Message>, bound: int)
    ensures Above(Blank(h), bound) == Above(h, bound)
  {
    if h != [] {
      BlankAbove(h[..|h| - 1], bound);
      assert Blank(h)[..|h| - 1] == Blank(h[..|h| - 1]);
    }
  }

  function BlankOutcome(o: Outcome): Outcome {
    Outcome(if o.result.Some? then Some(Blank(o.result.value)) else None, Blank(o.writes), o.marks)
  }

  lemma BlankMerged(s: Setting, used: seq<Message>, api: seq<Message>, limit: nat)
    requires |used| <= s.max
    ensures BlankOutcome(Merged(used, api, s.guildIntent, s.dmIntent, s.max, Some(s.guild), limit))
            == Merged(Blank(used), Blank(api), s.guildIntent, s.dmIntent, s.max, Some(s.guild), limit)
  {
    hide Tracks, Blank;
    var filled := WithGuild(api, GuildOf(used, Some(s.guild)));
    assert GuildOf(Blank(used), Some(s.guild)) == GuildOf(used, Some(s.guild));
    assert WithGuild(Blank(api), GuildOf(used, Some(s.guild))) == Blank(filled);
    BlankFirst(used, limit);
    BlankFirst(used + filled, limit);
    BlankFirst(filled, s.max - |used|);
    assert Blank(used + filled) == Blank(used) + Blank(filled);
    if api != [] {
      BlankTracks(filled[0], s.guildIntent, s.dmIntent);
    }
    assert Blank([]) == [];
  }

  lemma BlankFirst(ms: seq<Message>, k: nat)
    ensures Blank(First(ms, k)) == First(Blank(ms), k)
  {
  }

  lemma BlankTracks(m: Message, gi: bool, dm: bool)
    ensures Tracks(Blanked(m), gi, dm) == Tracks(m, gi, dm)
  {
  }

  lemma BlankFetched(h: seq<Message>, used: seq<Message>, limit: nat)
    ensures BeforeAt(Blank(h), Cursor(Blank(used))) == BeforeAt(h, Cursor(used))
    ensures Blank(Fetched(h, used, limit)) == Fetched(Blank(h), Blank(used), limit)
  {
    hide Above, Blank, Taken;
    BlankAbove(h, Cursor(used) - 1);
    var s := BeforeAt(h, Cursor(used));
    var e := s + Taken(|h| - s, limit);
    assert s <= e <= |h| by { TakenFits(|h| - s, limit); }
    assert Blank(h[s..e]) == Blank(h)[s..e];
  }

  lemma TakenFits(available: nat, limit: nat)
    ensures 0 <= Taken(available, limit) <= available
  {
  }

  lemma BlankUsable(cached: seq<Message>, gi: bool, dm: bool)
    ensures Usable(Blank(cached), gi, dm) == Blank(Usable(cached, gi, dm))
  {
    hide Tracks, Blank;
    if cached != [] {
      BlankTracks(cached[0], gi, dm);
    }
    assert Blank([]) == [];
  }

  lemma BlankReply(s: Setting, c: Channel, limit: nat, outage: nat)
    requires |c.cached| <= s.max
    ensures BlankOutcome(Reply(s, c, limit, outage)) == Reply(s, BlankChannel(c), limit, outage)
  {
    hide Merged, Blank, Due, Full, Fetched, Usable, BeforeAt, Cursor;
    var used := Usable(c.cached, s.guildIntent, s.dmIntent);
    BlankUsable(c.cached, s.guildIntent, s.dmIntent);
    NothingBlank();
    if used != [] && c.tiny {
    } else if 0 < limit <= |used| {
      assert Blank(used[..limit]) == Blank(used)[..limit];
    } else {
      UsableFits(c.cached, s.guildIntent, s.dmIntent);
      var fetchLimit := FetchLimit(limit, s.max, |used|);
      BlankFetched(c.h, used, fetchLimit);
      BlankMerged(s, used, Fetched(c.h, used, fetchLimit), limit);
    }
  }

  lemma NothingBlank()
    ensures Blank([]) == []
  {
  }

  lemma UsableFits(cached: seq<Message>, gi: bool, dm: bool)
    ensures |Usable(cached, gi, dm)| <= |cached|
  {
  }

  /** Without contents, every edit is no step at all, and the others are what they are. */
  lemma BlankApply(s: Setting, c: Channel, step: Step)
    requires |c.cached| <= s.max
    ensures BlankChannel(Apply(s, c, step))
            == match step
               case Arrive(id, _) => Apply(s, BlankChannel(c), Arrive(id, ""))
               case Edit(_, _) => BlankChannel(c)
               case Call(_, _) => Apply(s, BlankChannel(c), step)
  {
    hide Inserted, WriteBack, Reply, Updated, Blank;
    match step {
      case Arrive(id, content) =>
        var m := Item(id, Body(s.guild, content));
        BlankInserted(c.cached, m, s.max);
        assert Blank([m] + c.h) == [Blanked(m)] + Blank(c.h);
      case Edit(id, content) =>
        BlankUpdated(c.cached, Item(id, Body(s.guild, content)));
        assert Blank(Edited(c.h, id, content)) == Blank(c.h);
      case Call(limit, outage) =>
        BlankReply(s, c, limit, outage);
        BlankWriteBack(c.cached, Reply(s, c, limit, outage).writes, s.max);
    }
  }

  lemma {:induction false} RunKeepsIds(s: Setting, steps: seq<Step>)
    requires DistinctTimes(Run(s, steps).h)
    ensures InOrder(s, BlankChannel(Run(s, steps)))
  {
    hide InOrder, Reply, Inserted, WriteBack, Blank;
    if steps == [] {
      NothingYet(s);
      assert Blank([]) == [];
    } else {
      var before, step := steps[..|steps| - 1], steps[|steps| - 1];
      var c := Run(s, before);
      assert DistinctTimes(c.h) by { Earlier(s, c, step); }
      RunKeepsIds(s, before);
      BlankApply(s, c, step);
      match step
      case Arrive(id, _) => ArriveKeepsOrder(s, BlankChannel(c), id, "");
      case Edit(_, _) =>
      case Call(limit, outage) => CallKeepsOrder(s, BlankChannel(c), limit, outage);
    }
  }

  /** The messages are the channel's newest ones, newest first; their contents may be old. */
  ghost predicate NewestIds(c: seq<Message>, h: seq<Message>) {
    |c| <= |h| && forall k :: 0 <= k < |c| ==> c[k].id == h[k].id
  }

  lemma BlankPrefix(c: seq<Message>, h: seq<Message>)
    requires NewestPrefix(Blank(c), Blank(h))
    ensures NewestIds(c, h)
  {
    forall k | 0 <= k < |c| ensures c[k].id == h[k].id {
      assert Same(Blank(c)[k], Blank(h)[k]);
    }
  }

  /** In every run at all, lost edits or not, the cache has the newest messages in order, and a limited call
      returns the newest min(limit, n), with the same two exceptions as above. */
  lemma CallsReturnTheNewestIds(s: Setting, steps: seq<Step>, limit: nat, outage: nat)
    requires DistinctTimes(Run(s, steps).h) && limit > 0
    ensures NewestIds(Run(s, steps).cached, Run(s, steps).h)
    ensures var c := Run(s, steps); var o := Reply(s, c, limit, outage);
            !(c.tiny && s.Tracked() && c.cached != []) ==>
              if !Answered(s, c, limit, outage) then o.result.None?
              else o.result.Some? && NewestIds(o.result.value, c.h) && |o.result.value| == Min(limit, |c.h|)
  {
    hide NewestFirst, NewestPrefix, Usable, Blank, Reply, Unanswered;
    var c := Run(s, steps);
    RunKeepsIds(s, steps);
    BlankPrefix(c.cached, c.h);
    BlankReply(s, c, limit, outage);
    if !(c.tiny && s.Tracked() && c.cached != []) {
      LimitedReply(s, BlankChannel(c), limit, outage);
      if Answered(s, c, limit, outage) {
        BlankPrefix(Reply(s, c, limit, outage).result.value, c.h);
      }
    }
  }
}
