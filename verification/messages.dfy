// State.Messages (state/state.go): the message cache in front of the paged REST call.

module StateMessages {
  import opened Machine
  import opened MessageStore
  import opened Optional
  import opened Paging
  import opened Service
  import opened Slices

  /** What one call returns (None: the REST call failed), what it writes to the store, and
      whether it marks the channel as tiny. */
  datatype Outcome = Outcome(result: Option<seq<Message>>, writes: seq<Message>, marks: bool)

  /** tracksMessage: the session has the intent that keeps this kind of channel up to date. */
  predicate Tracks(m: Message, guildIntent: bool, dmIntent: bool) {
    (m.body.guildID != 0 && guildIntent) || (m.body.guildID == 0 && dmIntent)
  }

  /** The cached messages a call relies on: none when the channel is not tracked. */
  function Usable(cached: seq<Message>, guildIntent: bool, dmIntent: bool): seq<Message> {
    if cached != [] && Tracks(cached[0], guildIntent, dmIntent) then cached else []
  }

  /** The limit handed to the REST call; as there, 0 means all. */
  function FetchLimit(limit: nat, max: nat, used: nat): int {
    var l := Max(limit, max);
    if l > 0 then l - used else l
  }

  /** The cursor handed to the REST call. */
  function Cursor(used: seq<Message>): uint64 {
    if used == [] then 0 else used[|used| - 1].id
  }

  function WithGuild(ms: seq<Message>, guild: uint64): (r: seq<Message>)
    ensures |r| == |ms|
  {
    seq(|ms|, i requires 0 <= i < |ms| => ms[i].(body := ms[i].body.(guildID := guild)))
  }

  /** The guild id filled in: that of the cached messages, or of the looked-up channel, or none. */
  function GuildOf(used: seq<Message>, channelGuild: Option<uint64>): uint64 {
    if used != [] then used[0].body.guildID
    else if channelGuild.Some? then channelGuild.value
    else 0
  }

  /** What the REST call returns for a fetch limit. */
  function Fetched(h: seq<Message>, used: seq<Message>, limit: nat): seq<Message> {
    var s := BeforeAt(h, Cursor(used));
    h[s..s + Taken(|h| - s, limit)]
  }

  /** Merging what was fetched with the cached messages. */
  ghost function Merged(used: seq<Message>, api: seq<Message>, guildIntent: bool, dmIntent: bool, max: int,
                        channelGuild: Option<uint64>, limit: nat): Outcome
    requires |used| <= max
  {
    var marks := |used| + |api| < max;
    if api == [] then Outcome(Some(if limit > 0 then First(used, limit) else used), [], marks)
    else
      var filled := WithGuild(api, GuildOf(used, channelGuild));
      var writes := if Tracks(filled[0], guildIntent, dmIntent) then First(filled, max - |used|) else [];
      var all := used + filled;
      Outcome(Some(if limit > 0 then First(all, limit) else all), writes, marks)
  }

  /** One call on a channel whose cache holds `cached`. */
  ghost function Answer(cached: seq<Message>, tiny: bool, guildIntent: bool, dmIntent: bool, max: int,
                        h: seq<Message>, outage: nat, channelGuild: Option<uint64>, limit: nat): Outcome
    requires |cached| <= max
  {
    var used := Usable(cached, guildIntent, dmIntent);
    if used != [] && tiny then Outcome(Some(used), [], false)
    else if 0 < limit <= |used| then Outcome(Some(used[..limit]), [], false)
    else
      var fetchLimit := FetchLimit(limit, max, |used|);
      if Due(|h| - BeforeAt(h, Cursor(used)), fetchLimit, Full(100, outage)) then Outcome(None, [], false)
      else Merged(used, Fetched(h, used, fetchLimit), guildIntent, dmIntent, max, channelGuild, limit)
  }

  class State {
    const guildIntent: bool
    const dmIntent: bool
    const cabinet: Store
    var fewMessages: set<uint64>

    constructor (store: Store, guildIntent: bool, dmIntent: bool)
      ensures cabinet == store && fewMessages == {}
      ensures this.guildIntent == guildIntent && this.dmIntent == dmIntent
    {
      cabinet := store;
      fewMessages := {};
      this.guildIntent, this.dmIntent := guildIntent, dmIntent;
    }

    /** The write-back loop over the fetched messages. */
    method SetAll(channel: uint64, msgs: seq<Message>)
      requires |cabinet.Messages(channel)| <= cabinet.maxMsgs
      modifies cabinet
      ensures cabinet.Messages(channel) == WriteBack(old(cabinet.Messages(channel)), msgs, cabinet.maxMsgs)
      ensures forall other :: other != channel ==> cabinet.Messages(other) == old(cabinet.Messages(other))
    {
      for i := 0 to |msgs|
        invariant |cabinet.Messages(channel)| <= cabinet.maxMsgs
        invariant cabinet.Messages(channel) == WriteBack(old(cabinet.Messages(channel)), msgs[..i], cabinet.maxMsgs)
        invariant forall other :: other != channel ==> cabinet.Messages(other) == old(cabinet.Messages(other))
      {
        cabinet.MessageSet(channel, msgs[i], false);
        assert msgs[..i + 1][..i] == msgs[..i];
      }
      assert msgs[..|msgs|] == msgs;
    }

    /** The fetch limit as computed on uint: it never wraps below zero. */
    method NextFetchLimit(limit: uint64, used: nat) returns (fetchLimit: uint64)
      requires limit < TWO_63 && used <= cabinet.maxMsgs < TWO_63
      requires limit > 0 ==> used < limit
      ensures fetchLimit == FetchLimit(limit, cabinet.maxMsgs, used)
    {
      fetchLimit := limit;
      if fetchLimit < cabinet.maxMsgs {
        fetchLimit := cabinet.maxMsgs;
      }
      if fetchLimit > 0 {
        SubWrapCases(fetchLimit, used);
        fetchLimit := SubWrap(fetchLimit, used);
      }
    }

    /** The second half of State.Messages, after a successful fetch. */
    method Merge(channel: uint64, storeMessages: seq<Message>, api: seq<Message>, channelGuild: Option<uint64>,
                 limit: uint64)
      returns (msgs: seq<Message>)
      requires limit < TWO_63 && |storeMessages| <= cabinet.maxMsgs < TWO_63
      requires |cabinet.Messages(channel)| <= cabinet.maxMsgs
      modifies this, cabinet
      ensures var o := Merged(storeMessages, api, guildIntent, dmIntent, cabinet.maxMsgs, channelGuild, limit);
              && Some(msgs) == o.result
              && cabinet.Messages(channel) == WriteBack(old(cabinet.Messages(channel)), o.writes, cabinet.maxMsgs)
              && fewMessages == old(fewMessages) + (if o.marks then {channel} else {})
      ensures forall other :: other != channel ==> cabinet.Messages(other) == old(cabinet.Messages(other))
    {
      hide WriteBack, WithGuild, Tracks;
      WriteNothing(cabinet.Messages(channel), cabinet.maxMsgs);
      var max := cabinet.maxMsgs;
      if |storeMessages| + |api| < max {
        fewMessages := fewMessages + {channel};
      }
      if |api| == 0 {
        if limit > 0 && |storeMessages| > AsInt(limit) {
          return storeMessages[..limit];
        }
        return storeMessages;
      }
      var guild: uint64 := 0;
      if |storeMessages| > 0 {
        guild := storeMessages[0].body.guildID;
      } else if channelGuild.Some? {
        guild := channelGuild.value;
      }
      var filled := WithGuild(api, guild);
      if Tracks(filled[0], guildIntent, dmIntent) && |storeMessages| < max {
        var room := max - |storeMessages|;
        if room > |filled| {
          room := |filled|;
        }
        assert filled[..room] == First(filled, max - |storeMessages|);
        SetAll(channel, filled[..room]);
      }
      msgs := storeMessages + filled;
      if limit > 0 && |msgs| > AsInt(limit) {
        msgs := msgs[..limit];
      }
    }

    /**
     State.Messages. `h` is the channel on the server; `channelGuild` is what looking the
     channel up yields; `outage` requests are answered before one fails.
     */
    method Messages(h: seq<Message>, outage: nat, channelGuild: Option<uint64>, channel: uint64, limit: uint64)
      returns (result: Option<seq<Message>>)
      requires NewestFirst(h) && limit < TWO_63 && cabinet.maxMsgs < TWO_63
      requires |cabinet.Messages(channel)| <= cabinet.maxMsgs
      modifies this, cabinet
      ensures var o := Answer(old(cabinet.Messages(channel)), old(channel in fewMessages), guildIntent, dmIntent,
                              cabinet.maxMsgs, h, outage, channelGuild, limit);
              && result == o.result
              && cabinet.Messages(channel) == WriteBack(old(cabinet.Messages(channel)), o.writes, cabinet.maxMsgs)
              && fewMessages == old(fewMessages) + (if o.marks then {channel} else {})
      ensures forall other :: other != channel ==> cabinet.Messages(other) == old(cabinet.Messages(other))
    {
      hide Merged, Due, Taken, NewestFirst, Full, RequestsExact, WriteBack, BeforeAt;
      WriteNothing(cabinet.Messages(channel), cabinet.maxMsgs);
      var storeMessages := cabinet.Messages(channel);
      if |storeMessages| > 0 && Tracks(storeMessages[0], guildIntent, dmIntent) {
        if channel in fewMessages {
          return Some(storeMessages);
        }
      } else {
        storeMessages := [];
      }
      if |storeMessages| >= AsInt(limit) && limit > 0 {
        return Some(storeMessages[..limit]);
      }
      var fetchLimit := NextFetchLimit(limit, |storeMessages|);
      var before: uint64 := 0;
      if |storeMessages| > 0 {
        before := storeMessages[|storeMessages| - 1].id;
      }
      var apiMessages, failed, requests := MessagesBefore(h, outage, before, fetchLimit);
      FailsIff(outage, failed, requests, |h| - BeforeAt(h, before), fetchLimit, 100);
      if failed {
        return None;
      }
      var msgs := Merge(channel, storeMessages, apiMessages, channelGuild, limit);
      return Some(msgs);
    }
  }

  // What the outcome means for a channel `h` whose newest messages are cached.

  /** The fetch limit of a call that reaches the REST client: positive when a limit is given, so
      it never turns into "everything". */
  lemma FetchLimitIsPositive(limit: nat, max: nat, used: nat)
    requires limit > 0 && used < limit
    ensures FetchLimit(limit, max, used) == Max(limit, max) - used > 0
  {
  }

  /** The messages below the last cached one are exactly the ones that are not cached. */
  lemma FetchContinues(used: seq<Message>, h: seq<Message>, limit: nat)
    requires NewestFirst(h) && NewestPrefix(used, h)
    ensures BeforeAt(h, Cursor(used)) == |used|
    ensures Fetched(h, used, limit) == h[|used|..|used| + Taken(|h| - |used|, limit)]
  {
    if used != [] {
      MessageCursor(h, |used| - 1);
    }
  }

  /** Merging the cached messages with those that follow them up to position b. */
  lemma MergedWindow(used: seq<Message>, h: seq<Message>, b: nat, gi: bool, dm: bool, max: nat,
                     channelGuild: Option<uint64>, limit: nat)
    requires NewestPrefix(used, h) && |used| <= b <= |h| && |used| <= max
    ensures var o := Merged(used, h[|used|..b], gi, dm, max, channelGuild, limit);
            && o.result.Some? && NewestPrefix(o.result.value, h)
            && |o.result.value| == (if limit > 0 then Min(limit, b) else b)
            && (o.marks <==> b < max)
            && (forall k :: |used| <= k < |o.result.value| ==>
                  o.result.value[k].body.guildID == GuildOf(used, channelGuild))
    ensures var o := Merged(used, h[|used|..b], gi, dm, max, channelGuild, limit);
            && |used| + |o.writes| <= Min(max, b)
            && (forall j :: 0 <= j < |o.writes| ==> Same(o.writes[j], h[|used| + j]))
  {
    hide Tracks, GuildOf;
    var filled := WithGuild(h[|used|..b], GuildOf(used, channelGuild));
    assert forall j :: 0 <= j < |filled| ==> Same(filled[j], h[|used| + j]);
    assert |used + filled| == b && NewestPrefix(used + filled, h);
  }

  lemma UsablePrefix(cached: seq<Message>, h: seq<Message>, gi: bool, dm: bool, limit: nat)
    requires NewestPrefix(cached, h)
    ensures var used := Usable(cached, gi, dm);
            && |used| <= |cached| && |used| <= |h| && NewestPrefix(used, h)
            && (limit <= |used| ==> NewestPrefix(used[..limit], h))
  {
  }

  /** A session with these intents is kept up to date about the channels of a guild, or for 0 about
      the others. */
  predicate Covers(guild: uint64, guildIntent: bool, dmIntent: bool) {
    if guild != 0 then guildIntent else dmIntent
  }

  /** The cached messages are all relied on, or none of them. */
  lemma UsableIff(cached: seq<Message>, gi: bool, dm: bool)
    ensures Usable(cached, gi, dm) == if cached != [] && Covers(cached[0].body.guildID, gi, dm) then cached else []
  {
  }

  /**
   A request of a call goes unanswered: the cache has not enough messages, and after `outage` full pages of 100
   the channel may have more, and so many are not enough to fill the store or to meet the limit.
   */
  predicate Unanswered(used: nat, n: nat, max: nat, outage: nat, limit: nat) {
    var wanted := (if limit > max then limit else max) - used;
    !(0 < limit <= used) && 100 * outage <= n - used && (wanted == 0 || 100 * outage < wanted)
  }

  /** When a call fails: off the tiny-channel path, exactly when a request of it goes unanswered; never on that path,
      and never when the service answers for as many pages as the channel has. */
  lemma CallFailsIff(cached: seq<Message>, tiny: bool, gi: bool, dm: bool, max: nat,
                     h: seq<Message>, outage: nat, channelGuild: Option<uint64>, limit: nat)
    requires NewestFirst(h) && NewestPrefix(cached, h) && |cached| <= max
    ensures var o := Answer(cached, tiny, gi, dm, max, h, outage, channelGuild, limit);
            var used := Usable(cached, gi, dm);
            && (o.result.None? <==> !(tiny && used != []) && Unanswered(|used|, |h|, max, outage, limit))
            && (o.result.None? ==> o == Outcome(None, [], false))
            && (100 * outage > |h| ==> o.result.Some?)
  {
    hide NewestFirst, NewestPrefix, Merged, Fetched, Usable;
    var used := Usable(cached, gi, dm);
    UsablePrefix(cached, h, gi, dm, 0);
    var fetchLimit := FetchLimit(limit, max, |used|);
    FetchContinues(used, h, fetchLimit);
    MergedWindow(used, h, |used| + Taken(|h| - |used|, fetchLimit), gi, dm, max, channelGuild, limit);
  }

  /** A call that is served from the cache, on the tiny-channel path with all of it. */
  lemma CachedCall(cached: seq<Message>, tiny: bool, gi: bool, dm: bool, max: nat,
                   h: seq<Message>, outage: nat, channelGuild: Option<uint64>, limit: nat)
    requires NewestPrefix(cached, h) && |cached| <= max
    requires var used := Usable(cached, gi, dm); (tiny && used != []) || 0 < limit <= |used|
    ensures var o := Answer(cached, tiny, gi, dm, max, h, outage, channelGuild, limit);
            var used := Usable(cached, gi, dm);
            && o.writes == [] && !o.marks && o.result.Some? && NewestPrefix(o.result.value, h)
            && |o.result.value| == (if tiny then |used| else limit) && |used| <= |h|
  {
    hide NewestPrefix, Usable, Merged, Due;
    UsablePrefix(cached, h, gi, dm, limit);
  }

  /** A call that is not served from the cache and whose requests are answered merges the cached messages with
      those that follow them. */
  lemma CallMerges(cached: seq<Message>, tiny: bool, gi: bool, dm: bool, max: nat,
                   h: seq<Message>, outage: nat, channelGuild: Option<uint64>, limit: nat)
    returns (b: nat)
    requires NewestFirst(h) && NewestPrefix(cached, h) && |cached| <= max
    requires var used := Usable(cached, gi, dm);
             !(tiny && used != []) && !(0 < limit <= |used|) && !Unanswered(|used|, |h|, max, outage, limit)
    ensures var used := Usable(cached, gi, dm);
            && |used| <= |cached| && |used| <= b <= |h| && NewestPrefix(used, h)
            && b == |used| + Taken(|h| - |used|, FetchLimit(limit, max, |used|))
            && Answer(cached, tiny, gi, dm, max, h, outage, channelGuild, limit)
               == Merged(used, h[|used|..b], gi, dm, max, channelGuild, limit)
  {
    hide NewestFirst, NewestPrefix, Merged, Fetched, Usable;
    var used := Usable(cached, gi, dm);
    UsablePrefix(cached, h, gi, dm, 0);
    FetchContinues(used, h, FetchLimit(limit, max, |used|));
    b := |used| + Taken(|h| - |used|, FetchLimit(limit, max, |used|));
  }

  /**
   The law of State.Messages. On a channel that is not served from the tiny-channel path, a
   limited call returns exactly the newest min(limit, n) messages unless a request of it goes unanswered; it
   marks the channel as tiny exactly when it had to fetch and the whole history is shorter than the cache.
   */
  lemma LimitedCall(cached: seq<Message>, tiny: bool, gi: bool, dm: bool, max: nat,
                    h: seq<Message>, outage: nat, channelGuild: Option<uint64>, limit: nat)
    requires NewestFirst(h) && NewestPrefix(cached, h) && |cached| <= max
    requires limit > 0 && !(tiny && Usable(cached, gi, dm) != [])
    ensures var o := Answer(cached, tiny, gi, dm, max, h, outage, channelGuild, limit);
            if Unanswered(|Usable(cached, gi, dm)|, |h|, max, outage, limit) then o.result.None?
            else
              && o.result.Some? && NewestPrefix(o.result.value, h)
              && |o.result.value| == (if limit < |h| then limit else |h|)
              && (o.marks <==> |Usable(cached, gi, dm)| < limit && |h| < max)
  {
    hide NewestFirst, NewestPrefix, Merged, Usable, Answer, Unanswered;
    var used := Usable(cached, gi, dm);
    CallFailsIff(cached, tiny, gi, dm, max, h, outage, channelGuild, limit);
    if limit <= |used| {
      CachedCall(cached, tiny, gi, dm, max, h, outage, channelGuild, limit);
    } else if !Unanswered(|used|, |h|, max, outage, limit) {
      FetchLimitIsPositive(limit, max, |used|);
      var b := CallMerges(cached, tiny, gi, dm, max, h, outage, channelGuild, limit);
      MergedWindow(used, h, b, gi, dm, max, channelGuild, limit);
    }
  }

  /** A call marks the channel as tiny exactly when it has to fetch, is answered, and finds the channel shorter than
      the store. */
  lemma MarksIff(cached: seq<Message>, tiny: bool, gi: bool, dm: bool, max: nat,
                 h: seq<Message>, outage: nat, channelGuild: Option<uint64>, limit: nat)
    requires NewestFirst(h) && NewestPrefix(cached, h) && |cached| <= max
    ensures var used := Usable(cached, gi, dm);
            Answer(cached, tiny, gi, dm, max, h, outage, channelGuild, limit).marks
            <==> !(tiny && used != []) && !(0 < limit <= |used|)
                 && !Unanswered(|used|, |h|, max, outage, limit) && |h| < max
  {
    hide NewestFirst, NewestPrefix, Merged, Usable, Answer, Unanswered;
    var used := Usable(cached, gi, dm);
    CallFailsIff(cached, tiny, gi, dm, max, h, outage, channelGuild, limit);
    if (tiny && used != []) || 0 < limit <= |used| {
      CachedCall(cached, tiny, gi, dm, max, h, outage, channelGuild, limit);
    } else if !Unanswered(|used|, |h|, max, outage, limit) {
      var b := CallMerges(cached, tiny, gi, dm, max, h, outage, channelGuild, limit);
      MergedWindow(used, h, b, gi, dm, max, channelGuild, limit);
    }
  }

  /** Every message that came from the REST call carries the guild id of the newest cached one that is relied on, or
      of the looked-up channel, or none. */
  lemma GuildIsFilledIn(cached: seq<Message>, gi: bool, dm: bool, max: nat,
                        h: seq<Message>, outage: nat, channelGuild: Option<uint64>, limit: nat, k: nat)
    requires NewestFirst(h) && NewestPrefix(cached, h) && |cached| <= max
    ensures var o := Answer(cached, false, gi, dm, max, h, outage, channelGuild, limit);
            var used := Usable(cached, gi, dm);
            o.result.Some? && |used| <= k < |o.result.value| ==>
              o.result.value[k].body.guildID == if used != [] then cached[0].body.guildID
                                                else match channelGuild
                                                     case Some(guild) => guild
                                                     case None => 0
  {
    hide NewestFirst, NewestPrefix, Merged, Fetched;
    var used := Usable(cached, gi, dm);
    UsablePrefix(cached, h, gi, dm, 0);
    var fetchLimit := FetchLimit(limit, max, |used|);
    FetchContinues(used, h, fetchLimit);
    MergedWindow(used, h, |used| + Taken(|h| - |used|, fetchLimit), gi, dm, max, channelGuild, limit);
  }

  /** The messages written back are the next ones of the channel, at most as many as fit. */
  lemma WritesContinue(cached: seq<Message>, tiny: bool, gi: bool, dm: bool, max: nat,
                       h: seq<Message>, outage: nat, channelGuild: Option<uint64>, limit: nat)
    requires NewestFirst(h) && NewestPrefix(cached, h) && |cached| <= max
    ensures var o := Answer(cached, tiny, gi, dm, max, h, outage, channelGuild, limit);
            var a := |Usable(cached, gi, dm)|;
            && a + |o.writes| <= Min(max, |h|)
            && (forall j :: 0 <= j < |o.writes| ==> Same(o.writes[j], h[a + j]))
  {
    hide NewestFirst, NewestPrefix, Merged, Fetched, Same;
    var used := Usable(cached, gi, dm);
    UsablePrefix(cached, h, gi, dm, 0);
    var fetchLimit := FetchLimit(limit, max, |used|);
    FetchContinues(used, h, fetchLimit);
    MergedWindow(used, h, |used| + Taken(|h| - |used|, fetchLimit), gi, dm, max, channelGuild, limit);
  }

  /**
   A call fills the store up: it is not served from the cache, its requests are answered, the store has
   room, the channel has more messages, and the guild filled in is one the session tracks.
   */
  predicate FillsUp(cached: seq<Message>, tiny: bool, gi: bool, dm: bool, max: nat,
                    n: nat, outage: nat, channelGuild: Option<uint64>, limit: nat)
  {
    var used := Usable(cached, gi, dm);
    && !(tiny && used != []) && (limit == 0 || |used| < limit)
    && |used| < max && |used| < n && !Unanswered(|used|, n, max, outage, limit)
    && Covers(if used != [] then used[0].body.guildID
              else if channelGuild.Some? then channelGuild.value else 0, gi, dm)
  }

  lemma MergedFillsUp(used: seq<Message>, api: seq<Message>, gi: bool, dm: bool, max: nat,
                      channelGuild: Option<uint64>, limit: nat)
    requires |used| <= max
    ensures |Merged(used, api, gi, dm, max, channelGuild, limit).writes|
            == if api != [] && Covers(GuildOf(used, channelGuild), gi, dm) then Min(max - |used|, |api|) else 0
  {
  }

  /** How many messages are written back. */
  lemma WritesFillUp(cached: seq<Message>, tiny: bool, gi: bool, dm: bool, max: nat,
                     h: seq<Message>, outage: nat, channelGuild: Option<uint64>, limit: nat)
    requires NewestFirst(h) && NewestPrefix(cached, h) && |cached| <= max
    ensures var o := Answer(cached, tiny, gi, dm, max, h, outage, channelGuild, limit);
            var used := |Usable(cached, gi, dm)|;
            used + |o.writes| == if FillsUp(cached, tiny, gi, dm, max, |h|, outage, channelGuild, limit)
                                 then Min(max, |h|) else used
  {
    hide NewestFirst, NewestPrefix, Merged, Covers, Usable, Answer, Unanswered;
    var used := Usable(cached, gi, dm);
    CallFailsIff(cached, tiny, gi, dm, max, h, outage, channelGuild, limit);
    if (tiny && used != []) || 0 < limit <= |used| {
      CachedCall(cached, tiny, gi, dm, max, h, outage, channelGuild, limit);
    } else if !Unanswered(|used|, |h|, max, outage, limit) {
      var b := CallMerges(cached, tiny, gi, dm, max, h, outage, channelGuild, limit);
      MergedFillsUp(used, h[|used|..b], gi, dm, max, channelGuild, limit);
    }
  }

  /**
   The cache afterwards again holds the newest messages, newest first, unless the call fills the store up
   and one of the messages this adds was made in the same millisecond as the channel's newest: exactly then
   the order is lost.
   */
  lemma CacheStaysPrefix(cached: seq<Message>, tiny: bool, gi: bool, dm: bool, max: nat,
                         h: seq<Message>, outage: nat, channelGuild: Option<uint64>, limit: nat)
    requires NewestFirst(h) && NewestPrefix(cached, h) && |cached| <= max
    ensures var o := Answer(cached, tiny, gi, dm, max, h, outage, channelGuild, limit);
            NewestPrefix(WriteBack(cached, o.writes, max), h)
            <==> !(FillsUp(cached, tiny, gi, dm, max, |h|, outage, channelGuild, limit)
                   && Clash(h, |cached|, Min(max, |h|)))
  {
    hide Answer, WriteBack, Clash, NewestPrefix, NewestFirst, Same, FillsUp, Usable;
    WritesContinue(cached, tiny, gi, dm, max, h, outage, channelGuild, limit);
    WritesFillUp(cached, tiny, gi, dm, max, h, outage, channelGuild, limit);
    UsablePrefix(cached, h, gi, dm, 0);
    var o := Answer(cached, tiny, gi, dm, max, h, outage, channelGuild, limit);
    WriteBackIff(cached, h, |Usable(cached, gi, dm)|, o.writes, max);
    if !FillsUp(cached, tiny, gi, dm, max, |h|, outage, channelGuild, limit) {
      NoClash(h, |cached|, |Usable(cached, gi, dm)|);
    }
  }

  /** The clash exists: two messages of one millisecond and an empty cache. */
  lemma CacheCanLoseItsOrder()
    ensures var h := [Item(2, Body(0, "b")), Item(1, Body(0, "a"))];
            && NewestFirst(h)
            && !NewestPrefix(WriteBack([], Answer([], false, true, true, 10, h, 1, None, 5).writes, 10), h)
  {
    var h := [Item(2, Body(0, "b")), Item(1, Body(0, "a"))];
    var o := Answer([], false, true, true, 10, h, 1, None, 5);
    assert h[0..2] == h;
    assert |o.writes| == 2;
    CacheStaysPrefix([], false, true, true, 10, h, 1, None, 5);
    assert Time(h[1].id) == Time(h[0].id);
  }

  /**
   A zero limit is documented to return the whole channel. It does so, when no request goes unanswered
   and the channel is not on the tiny-channel path, if and only if the store keeps no messages,
   or the usable cache is full, or the whole channel fits the store.
   */
  lemma UnlimitedCall(cached: seq<Message>, gi: bool, dm: bool, max: nat,
                      h: seq<Message>, outage: nat, channelGuild: Option<uint64>)
    requires NewestFirst(h) && NewestPrefix(cached, h) && |cached| <= max
    ensures var o := Answer(cached, false, gi, dm, max, h, outage, channelGuild, 0);
            var used := |Usable(cached, gi, dm)|;
            if Unanswered(used, |h|, max, outage, 0) then o.result.None?
            else
              && o.result.Some? && NewestPrefix(o.result.value, h)
              && |o.result.value| == (if max == 0 || used == max || |h| <= max then |h| else max)
              && (|o.result.value| == |h| <==> max == 0 || used == max || |h| <= max)
  {
    hide NewestFirst, NewestPrefix, Merged, Usable, Answer, Unanswered;
    var used := Usable(cached, gi, dm);
    CallFailsIff(cached, false, gi, dm, max, h, outage, channelGuild, 0);
    if !Unanswered(|used|, |h|, max, outage, 0) {
      var b := CallMerges(cached, false, gi, dm, max, h, outage, channelGuild, 0);
      MergedWindow(used, h, b, gi, dm, max, channelGuild, 0);
    }
  }

  /** With an empty cache of one message, a zero limit returns one message of two. */
  lemma UnlimitedCallMisses(h: seq<Message>, gi: bool, dm: bool, channelGuild: Option<uint64>)
    requires NewestFirst(h) && |h| == 2
    ensures var o := Answer([], false, gi, dm, 1, h, 1, channelGuild, 0);
            o.result.Some? && |o.result.value| == 1
  {
    UnlimitedCall([], gi, dm, 1, h, 1, channelGuild);
    FetchContinues([], h, 1);
    MergedWindow([], h, 1, gi, dm, 1, channelGuild, 0);
  }

  /** On the tiny-channel path the cache is returned whatever the limit is: the law of a limited or
      unlimited call holds there if and only if the cache holds min(limit, n) messages, no more and no less. */
  lemma TinyCall(cached: seq<Message>, gi: bool, dm: bool, max: nat,
                 h: seq<Message>, outage: nat, channelGuild: Option<uint64>, limit: nat)
    requires NewestPrefix(cached, h) && |cached| <= max && Usable(cached, gi, dm) != []
    ensures var o := Answer(cached, true, gi, dm, max, h, outage, channelGuild, limit);
            && o == Outcome(Some(cached), [], false)
            && (NewestPrefix(o.result.value, h) && |o.result.value| == Taken(|h|, limit)
                <==> |cached| == Taken(|h|, limit))
  {
  }

  /** Both ways it can miss: a limit below the cache, and a channel that has outgrown the store. */
  lemma TinyCallMisses(h: seq<Message>, gi: bool, dm: bool, outage: nat, channelGuild: Option<uint64>)
    requires |h| == 2 && Usable(h, gi, dm) != []
    ensures |Answer(h, true, gi, dm, 2, h, outage, channelGuild, 1).result.value| == 2
    ensures NewestPrefix(h[..1], h) && |Answer(h[..1], true, gi, dm, 1, h, outage, channelGuild, 2).result.value| == 1
  {
  }
}
