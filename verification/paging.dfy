// The paging loops of the REST client (api/message.go, api/guild.go,
// api/member.go, api/message_reaction.go).

/**
 What the remote service answers. A channel's messages, a user's guilds, a guild's members
 and an emoji's reactions are items with distinct nonzero ids, in the order the service lists
 them: messages newest first, everything else with the smallest id first.
 */
module Service {
  import opened Machine
  import opened Slices

  datatype Item<T> = Item(id: uint64, body: T)

  ghost predicate NewestFirst<T>(h: seq<Item<T>>) {
    && (forall i :: 0 <= i < |h| ==> h[i].id > 0)
    && (forall i, j :: 0 <= i < j < |h| ==> h[i].id > h[j].id)
  }

  ghost predicate SmallestFirst<T>(h: seq<Item<T>>) {
    && (forall i :: 0 <= i < |h| ==> h[i].id > 0)
    && (forall i, j :: 0 <= i < j < |h| ==> h[i].id < h[j].id)
  }

  /** In a newest-first list: how many leading items have an id above the bound. */
  function Above<T>(h: seq<Item<T>>, bound: int): (r: nat)
    ensures r <= |h|
  {
    if h == [] then 0
    else if h[|h| - 1].id > bound then |h|
    else Above(h[..|h| - 1], bound)
  }

  /** In a smallest-first list: how many leading items have an id below the bound. */
  function Below<T>(h: seq<Item<T>>, bound: int): (r: nat)
    ensures r <= |h|
  {
    if h == [] then 0
    else if h[|h| - 1].id < bound then |h|
    else Below(h[..|h| - 1], bound)
  }

  /** The position in a message list where the ids drop below `before`; zero means no cursor. */
  function BeforeAt<T>(h: seq<Item<T>>, before: uint64): (r: nat)
    ensures r <= |h|
  {
    if before == 0 then 0 else Above(h, before - 1)
  }

  /** One answer of the messages endpoint, nearest to the cursor, newest first. */
  function MessagesPage<T>(h: seq<Item<T>>, before: uint64, after: uint64, limit: nat): seq<Item<T>> {
    if before == 0 && after != 0 then Last(h[..Above(h, after)], limit)
    else First(h[BeforeAt(h, before)..], limit)
  }

  /** One answer of the other endpoints, smallest id first; without a `before` cursor the
      list starts right after `after`. */
  function AscendingPage<T>(h: seq<Item<T>>, before: uint64, after: uint64, limit: nat): seq<Item<T>> {
    if before != 0 then Last(h[..Below(h, before)], limit) else First(h[Below(h, after + 1)..], limit)
  }

  lemma AboveSplits<T>(h: seq<Item<T>>, bound: int)
    requires NewestFirst(h)
    ensures forall i :: 0 <= i < |h| ==> (i < Above(h, bound) <==> h[i].id > bound)
  {
  }

  lemma BelowSplits<T>(h: seq<Item<T>>, bound: int)
    requires SmallestFirst(h)
    ensures forall i :: 0 <= i < |h| ==> (i < Below(h, bound) <==> h[i].id < bound)
  {
  }

  /** An item's own id is an exact cursor in both directions. */
  lemma MessageCursor<T>(h: seq<Item<T>>, i: nat)
    requires NewestFirst(h) && i < |h|
    ensures Above(h, h[i].id) == i && BeforeAt(h, h[i].id) == i + 1
  {
    AboveSplits(h, h[i].id);
    AboveSplits(h, h[i].id - 1);
    assert i > 0 ==> h[i - 1].id > h[i].id;
    assert i + 1 < |h| ==> h[i].id > h[i + 1].id;
  }

  lemma AscendingCursor<T>(h: seq<Item<T>>, i: nat)
    requires SmallestFirst(h) && i < |h|
    ensures Below(h, h[i].id) == i && Below(h, h[i].id + 1) == i + 1
  {
    BelowSplits(h, h[i].id);
    BelowSplits(h, h[i].id + 1);
    assert i > 0 ==> h[i - 1].id < h[i].id;
    assert i + 1 < |h| ==> h[i].id < h[i + 1].id;
  }
}

module Paging {
  import opened Machine
  import opened Slices
  import opened Service

  const MAX_MESSAGE_FETCH: int := 100

  /** How many of `available` items a limit (0: none) asks for. */
  function Taken(available: nat, limit: nat): nat {
    if limit == 0 || available < limit then available else limit
  }

  /** After `done` items in full pages another request is due: there may be more items, and
      the limit (0: none) is not met. */
  predicate Due(available: nat, limit: nat, done: nat) {
    done <= available && (limit == 0 || done < limit)
  }

  /** The number of items in k full pages. */
  function Full(page: nat, k: nat): nat {
    page * k
  }

  lemma FullStep(page: nat, k: nat)
    ensures Full(page, 0) == 0 && Full(page, k + 1) == Full(page, k) + page
  {
  }

  /** A call issues exactly the requests that are due, and fails at the first one that fails:
      the one after `outage` answered requests, if it is due. */
  ghost predicate RequestsExact(outage: nat, failed: bool, requests: nat, available: nat, limit: nat, page: nat) {
    && 0 < requests <= outage + 1
    && Due(available, limit, Full(page, requests - 1))
    && (if failed then requests == outage + 1 else requests <= outage && !Due(available, limit, Full(page, requests)))
  }

  /** The two ways a loop ends. */
  lemma LoopEnds(outage: nat, requests: nat, available: nat, limit: nat, page: nat, done: nat)
    requires requests > 0 && Full(page, requests - 1) + page == done && done >= page && Due(available, limit, done - page)
    ensures requests == outage + 1 ==> RequestsExact(outage, true, requests, available, limit, page)
    ensures requests <= outage && done == Full(page, requests) && !Due(available, limit, done)
            ==> RequestsExact(outage, false, requests, available, limit, page)
  {
    hide Due, Full;
  }

  /** One round of any loop, `done` items after its start: a short page ends it with exactly
      what the limit asks for, a full one leaves either another request due or the limit met. */
  lemma Round(available: nat, limit: nat, done: nat, size: nat, page: nat)
    requires done <= available && (limit == 0 || done < limit)
    requires size == if limit == 0 then page else Min(page, limit - done)
    ensures Due(available, limit, done)
    ensures var got := Min(size, available - done);
            && (got < page ==> done + got == Taken(available, limit) && !Due(available, limit, done + page))
            && (got == page ==> size == page && done + page <= available && (limit > 0 ==> done + page <= limit))
    ensures limit > 0 && done + page == limit <= available
            ==> Taken(available, limit) == limit && !Due(available, limit, limit)
  {
  }

  /** The clamp at the start of messagesRange. */
  function ClampMessages(limit: uint64): nat {
    if limit == 0 then 50 else if limit > 100 then 100 else limit
  }

  /** The head of both message loops, on uint: the size the request is sent with, and the
      remaining limit, which wraps below zero when less than a full page is left. */
  method NextMessageFetch(left: uint64) returns (fetch: uint64, remaining: uint64)
    requires left > 0
    ensures ClampMessages(fetch) == Min(100, left)
    ensures remaining == if left >= 100 then left - 100 else left + TWO_64 - 100
  {
    var i := AsInt(left);
    if i < 0 {
      assert i % TWO_64 == i + TWO_64;
    } else {
      assert Min(100, i) % TWO_64 == Min(100, i);
    }
    SubWrapCases(left, MAX_MESSAGE_FETCH);
    fetch := AsUint(Min(MAX_MESSAGE_FETCH, i));
    remaining := SubWrap(left, MAX_MESSAGE_FETCH);
  }

  /** One page further down the list: it continues what was collected, and its last item is
      the next cursor. */
  lemma OlderPage<T>(h: seq<Item<T>>, cursor: uint64, start: nat, c: nat, size: nat)
    requires NewestFirst(h)
    requires start <= c <= |h| && BeforeAt(h, cursor) == c
    ensures var m := MessagesPage(h, cursor, 0, size);
            && |m| == Min(size, |h| - c)
            && h[start..c] + m == h[start..c + |m|]
            && (0 < size == |m| ==> BeforeAt(h, m[size - 1].id) == c + size)
  {
    hide NewestFirst, Above;
    var m := MessagesPage(h, cursor, 0, size);
    assert m == h[c..c + Min(size, |h| - c)];
    assert h[start..c] + m == h[start..c + |m|];
    if 0 < size <= |h| - c {
      MessageCursor(h, c + size - 1);
      assert m[size - 1] == h[c + size - 1];
    }
  }

  /**
   Client.MessagesBefore. The service answers `outage` requests of this call before one
   fails. `limit -= 100` wraps below zero on a short last page; every uint limit is
   covered, because the clamp in messagesRange also absorbs a limit that int() makes negative.
   */
  method MessagesBefore<T>(h: seq<Item<T>>, outage: nat, before: uint64, limit: uint64)
    returns (msgs: seq<Item<T>>, failed: bool, requests: nat)
    requires NewestFirst(h)
    ensures var s := BeforeAt(h, before);
            && (!failed ==> msgs == h[s..s + Taken(|h| - s, limit)])
            && (failed ==> s + 100 * outage <= |h| && msgs == h[s..s + 100 * outage])
            && RequestsExact(outage, failed, requests, |h| - s, limit, 100)
  {
    hide MessagesPage, BeforeAt, NewestFirst;
    var cursor, left, fetch := before, limit, 100;
    var unlimited := limit == 0;
    ghost var s := BeforeAt(h, before);
    ghost var c := s;
    msgs, failed, requests := [], false, 0;
    while left > 0 || unlimited
      invariant unlimited <==> limit == 0
      invariant unlimited ==> left == 0 && fetch == 100
      invariant !unlimited ==> left == limit - 100 * requests
      invariant s <= c <= |h| && c == s + 100 * requests && BeforeAt(h, cursor) == c
      invariant msgs == h[s..c] && !failed
      invariant requests > 0 ==> Due(|h| - s, limit, 100 * (requests - 1))
      invariant requests <= outage
      decreases |h| - c + 1
    {
      ghost var size := if unlimited then 100 else Min(100, left);
      if left > 0 {
        fetch, left := NextMessageFetch(left);
      }
      requests := requests + 1;
      if requests > outage {
        failed := true;
        return;
      }
      var m := MessagesPage(h, cursor, 0, ClampMessages(fetch));
      OlderPage(h, cursor, s, c, size);
      msgs := msgs + m;
      if |m| < MAX_MESSAGE_FETCH {
        return;
      }
      c := c + 100;
      cursor := m[|m| - 1].id;
    }
  }

  lemma NewerPage<T>(h: seq<Item<T>>, cursor: uint64, c: nat, end: nat, size: nat)
    requires NewestFirst(h)
    requires c <= end <= |h| && cursor != 0 && Above(h, cursor) == c
    ensures var m := MessagesPage(h, 0, cursor, size);
            && |m| == Min(size, c)
            && m + h[c..end] == h[c - |m|..end]
            && (0 < size == |m| ==> m[0].id != 0 && Above(h, m[0].id) == c - size)
  {
    hide NewestFirst, Above;
    var m := MessagesPage(h, 0, cursor, size);
    assert m == h[c - Min(size, c)..c];
    assert m + h[c..end] == h[c - |m|..end];
    if 0 < size <= c {
      MessageCursor(h, c - size);
      assert m[0] == h[c - size];
    }
  }

  /** Client.MessagesAfter; a zero cursor is replaced by 1 so that it is not omitted. */
  method MessagesAfter<T>(h: seq<Item<T>>, outage: nat, after: uint64, limit: uint64)
    returns (msgs: seq<Item<T>>, failed: bool, requests: nat)
    requires NewestFirst(h)
    ensures var e := Above(h, Max(after, 1));
            && (!failed ==> msgs == h[e - Taken(e, limit)..e])
            && (failed ==> 100 * outage <= e && msgs == h[e - 100 * outage..e])
            && RequestsExact(outage, failed, requests, e, limit, 100)
  {
    hide MessagesPage, Above, NewestFirst;
    var cursor: uint64 := if after == 0 then 1 else after;
    var left, fetch := limit, 100;
    var unlimited := limit == 0;
    ghost var e := Above(h, cursor);
    ghost var c := e;
    msgs, failed, requests := [], false, 0;
    while left > 0 || unlimited
      invariant unlimited <==> limit == 0
      invariant unlimited ==> left == 0 && fetch == 100
      invariant !unlimited ==> left == limit - 100 * requests
      invariant 0 <= c <= e <= |h| && c == e - 100 * requests && cursor != 0 && Above(h, cursor) == c
      invariant msgs == h[c..e] && !failed
      invariant requests > 0 ==> Due(e, limit, 100 * (requests - 1))
      invariant requests <= outage
      decreases c + 1
    {
      ghost var size := if unlimited then 100 else Min(100, left);
      if left > 0 {
        fetch, left := NextMessageFetch(left);
      }
      requests := requests + 1;
      if requests > outage {
        failed := true;
        return;
      }
      var m := MessagesPage(h, 0, cursor, ClampMessages(fetch));
      NewerPage(h, cursor, c, e, size);
      msgs := m + msgs;
      if |m| < MAX_MESSAGE_FETCH {
        return;
      }
      c := c - 100;
      cursor := m[0].id;
    }
  }

  /** Where a backward ascending loop ends: below its cursor, or, since a zero cursor is omitted
      and the service then starts with the smallest id, after the first page. */
  function EndAt<T>(h: seq<Item<T>>, before: uint64, limit: nat, page: nat): (r: nat)
    ensures r <= |h|
  {
    if before != 0 then Below(h, before) else Min(|h|, Taken(page, limit))
  }

  lemma NothingBelowOne<T>(h: seq<Item<T>>)
    requires SmallestFirst(h)
    ensures Below(h, 1) == 0
  {
    BelowSplits(h, 1);
    assert |h| > 0 ==> h[0].id >= 1;
  }

  lemma LowerSlice<T>(h: seq<Item<T>>, cursor: uint64, size: nat, limit: nat, page: nat)
    requires SmallestFirst(h)
    requires cursor == 0 ==> size == if limit == 0 then page else Min(page, limit)
    ensures var c := EndAt(h, cursor, limit, page); AscendingPage(h, cursor, 0, size) == h[c - Min(size, c)..c]
  {
    hide SmallestFirst, Below;
    if cursor == 0 {
      NothingBelowOne(h);
    } else {
      assert h[..Below(h, cursor)][..] == h[..Below(h, cursor)];
    }
  }

  lemma LowerCursor<T>(h: seq<Item<T>>, i: nat, limit: nat, page: nat)
    requires SmallestFirst(h) && i < |h|
    ensures h[i].id != 0 && EndAt(h, h[i].id, limit, page) == i
  {
    AscendingCursor(h, i);
  }

  lemma LowerPage<T>(h: seq<Item<T>>, cursor: uint64, c: nat, end: nat, size: nat, limit: nat, page: nat)
    requires SmallestFirst(h)
    requires c <= end <= |h| && c == EndAt(h, cursor, limit, page)
    requires cursor == 0 ==> size == if limit == 0 then page else Min(page, limit)
    ensures var g := AscendingPage(h, cursor, 0, size);
            && |g| == Min(size, c)
            && g + h[c..end] == h[c - |g|..end]
            && (0 < size == |g| ==> g[0].id != 0 && EndAt(h, g[0].id, limit, page) == c - size)
  {
    hide SmallestFirst, AscendingPage, EndAt;
    LowerSlice(h, cursor, size, limit, page);
    var g := AscendingPage(h, cursor, 0, size);
    assert g + h[c..end] == h[c - |g|..end];
    if 0 < size <= c {
      LowerCursor(h, c - size, limit, page);
    }
  }

  /** The head of the other loops: what was asked for is subtracted, so nothing wraps. */
  method NextFetch(left: uint64, page: nat) returns (fetch: uint64, remaining: uint64)
    requires 0 < left < TWO_63 && page <= 1000
    ensures fetch == Min(page, left) && remaining == left - fetch
  {
    fetch := AsUint(Min(page, AsInt(left)));
    SubWrapCases(left, fetch);
    remaining := SubWrap(left, fetch);
  }

  /** The loop of GuildsBefore and ReactionsBefore: pages are prepended and the remaining limit
      is lowered by what was asked for, so it never wraps. */
  method PagedBefore<T>(h: seq<Item<T>>, outage: nat, before: uint64, limit: uint64, page: nat)
    returns (items: seq<Item<T>>, failed: bool, requests: nat)
    requires SmallestFirst(h) && 0 < page <= 1000 && limit < TWO_63
    ensures var p := EndAt(h, before, limit, page);
            && (!failed ==> items == h[p - Taken(p, limit)..p])
            && (failed ==> Full(page, outage) <= p && items == h[p - Full(page, outage)..p])
            && RequestsExact(outage, failed, requests, p, limit, page)
  {
    hide Full, Taken, Due, AscendingPage, Below, SmallestFirst, EndAt;
    var cursor: uint64 := before;
    var left, fetch: nat := limit, page;
    ghost var done := 0;
    var unlimited := limit == 0;
    ghost var p := EndAt(h, before, limit, page);
    ghost var c := p;
    items, failed, requests := [], false, 0;
    FullStep(page, 0);
    while left > 0 || unlimited
      invariant unlimited <==> limit == 0
      invariant unlimited ==> left == 0 && fetch == page
      invariant !unlimited ==> left == limit - done
      invariant 0 <= c <= p <= |h| && c == p - done
      invariant c == EndAt(h, cursor, limit, page) && (cursor == 0 ==> requests == 0)
      invariant items == h[c..p] && !failed
      invariant done == Full(page, requests)
      invariant requests > 0 ==> Full(page, requests - 1) + page == done && Due(p, limit, done - page)
      invariant requests <= outage
      invariant !unlimited && left == 0 ==> done == Taken(p, limit) && !Due(p, limit, done)
      decreases c + 1
    {
      if left > 0 {
        fetch, left := NextFetch(left, page);
      }
      Round(p, limit, done, fetch, page);
      FullStep(page, requests);
      requests, done := requests + 1, done + page;
      if requests > outage {
        failed := true;
        return;
      }
      var g := AscendingPage(h, cursor, 0, fetch);
      LowerPage(h, cursor, c, p, fetch, limit, page);
      items := g + items;
      if |g| < page {
        return;
      }
      c := c - page;
      cursor := g[0].id;
    }
  }

  /** Where a forward ascending loop starts. */
  function StartAt<T>(h: seq<Item<T>>, after: uint64): (r: nat)
    ensures r <= |h|
  {
    Below(h, after + 1)
  }

  lemma HigherPage<T>(h: seq<Item<T>>, cursor: uint64, start: nat, c: nat, size: nat)
    requires SmallestFirst(h)
    requires start <= c <= |h| && StartAt(h, cursor) == c
    ensures var g := AscendingPage(h, 0, cursor, size);
            && |g| == Min(size, |h| - c)
            && h[start..c] + g == h[start..c + |g|]
            && (0 < size == |g| ==> StartAt(h, g[size - 1].id) == c + size)
  {
    hide SmallestFirst, Below;
    var g := AscendingPage(h, 0, cursor, size);
    assert g == h[c..c + Min(size, |h| - c)];
    assert h[start..c] + g == h[start..c + |g|];
    if 0 < size <= |h| - c {
      AscendingCursor(h, c + size - 1);
      assert g[size - 1] == h[c + size - 1];
    }
  }

  /** The loop of GuildsAfter, ReactionsAfter and MembersAfter: pages are appended. */
  method PagedAfter<T>(h: seq<Item<T>>, outage: nat, after: uint64, limit: uint64, page: nat)
    returns (items: seq<Item<T>>, failed: bool, requests: nat)
    requires SmallestFirst(h) && 0 < page <= 1000 && limit < TWO_63
    ensures var q := StartAt(h, after);
            && (!failed ==> items == h[q..q + Taken(|h| - q, limit)])
            && (failed ==> q + Full(page, outage) <= |h| && items == h[q..q + Full(page, outage)])
            && RequestsExact(outage, failed, requests, |h| - q, limit, page)
  {
    hide Full, Taken, Due, AscendingPage, StartAt, SmallestFirst, RequestsExact;
    var cursor: uint64 := after;
    var left, fetch: nat := limit, page;
    ghost var done := 0;
    var unlimited := limit == 0;
    ghost var q := StartAt(h, after);
    ghost var c, n := q, |h| - q;
    items, failed, requests := [], false, 0;
    FullStep(page, 0);
    while left > 0 || unlimited
      invariant unlimited <==> limit == 0
      invariant unlimited ==> left == 0 && fetch == page
      invariant !unlimited ==> left == limit - done
      invariant q <= c <= |h| && c == q + done && StartAt(h, cursor) == c
      invariant items == h[q..c] && !failed
      invariant done == Full(page, requests)
      invariant requests > 0 ==> Full(page, requests - 1) + page == done && Due(n, limit, done - page)
      invariant requests <= outage
      invariant !unlimited && left == 0 ==> done == Taken(n, limit) && !Due(n, limit, done)
      decreases |h| - c + 1
    {
      if left > 0 {
        fetch, left := NextFetch(left, page);
      }
      Round(n, limit, done, fetch, page);
      FullStep(page, requests);
      requests, done := requests + 1, done + page;
      LoopEnds(outage, requests, n, limit, page, done);
      if requests > outage {
        failed := true;
        return;
      }
      var g := AscendingPage(h, 0, cursor, fetch);
      HigherPage(h, cursor, q, c, fetch);
      items := items + g;
      if |g| < page {
        return;
      }
      c := c + page;
      cursor := g[|g| - 1].id;
    }
    LoopEnds(outage, requests, n, limit, page, done);
  }

  // The client's calls: the same two loops at the page sizes of their endpoints.

  method GuildsBefore<T>(h: seq<Item<T>>, outage: nat, before: uint64, limit: uint64)
    returns (guilds: seq<Item<T>>, failed: bool, requests: nat)
    requires SmallestFirst(h) && limit < TWO_63
    ensures var p := EndAt(h, before, limit, 200);
            && (!failed ==> guilds == h[p - Taken(p, limit)..p])
            && (failed ==> 200 * outage <= p && guilds == h[p - 200 * outage..p])
            && RequestsExact(outage, failed, requests, p, limit, 200)
  {
    guilds, failed, requests := PagedBefore(h, outage, before, limit, 200);
  }

  method GuildsAfter<T>(h: seq<Item<T>>, outage: nat, after: uint64, limit: uint64)
    returns (guilds: seq<Item<T>>, failed: bool, requests: nat)
    requires SmallestFirst(h) && limit < TWO_63
    ensures var q := StartAt(h, after);
            && (!failed ==> guilds == h[q..q + Taken(|h| - q, limit)])
            && (failed ==> q + 200 * outage <= |h| && guilds == h[q..q + 200 * outage])
            && RequestsExact(outage, failed, requests, |h| - q, limit, 200)
  {
    guilds, failed, requests := PagedAfter(h, outage, after, limit, 200);
  }

  method ReactionsBefore<T>(h: seq<Item<T>>, outage: nat, before: uint64, limit: uint64)
    returns (users: seq<Item<T>>, failed: bool, requests: nat)
    requires SmallestFirst(h) && limit < TWO_63
    ensures var p := EndAt(h, before, limit, 100);
            && (!failed ==> users == h[p - Taken(p, limit)..p])
            && (failed ==> 100 * outage <= p && users == h[p - 100 * outage..p])
            && RequestsExact(outage, failed, requests, p, limit, 100)
  {
    users, failed, requests := PagedBefore(h, outage, before, limit, 100);
  }

  method ReactionsAfter<T>(h: seq<Item<T>>, outage: nat, after: uint64, limit: uint64)
    returns (users: seq<Item<T>>, failed: bool, requests: nat)
    requires SmallestFirst(h) && limit < TWO_63
    ensures var q := StartAt(h, after);
            && (!failed ==> users == h[q..q + Taken(|h| - q, limit)])
            && (failed ==> q + 100 * outage <= |h| && users == h[q..q + 100 * outage])
            && RequestsExact(outage, failed, requests, |h| - q, limit, 100)
  {
    users, failed, requests := PagedAfter(h, outage, after, limit, 100);
  }

  method MembersAfter<T>(h: seq<Item<T>>, outage: nat, after: uint64, limit: uint64)
    returns (members: seq<Item<T>>, failed: bool, requests: nat)
    requires SmallestFirst(h) && limit < TWO_63
    ensures var q := StartAt(h, after);
            && (!failed ==> members == h[q..q + Taken(|h| - q, limit)])
            && (failed ==> q + 1000 * outage <= |h| && members == h[q..q + 1000 * outage])
            && RequestsExact(outage, failed, requests, |h| - q, limit, 1000)
  {
    members, failed, requests := PagedAfter(h, outage, after, limit, 1000);
  }

  // What the windows mean, and where the calls differ from what a reader would expect.

  /** MessagesBefore's window holds exactly the items below the cursor whose `limit`-th newer
      neighbour is not below the cursor as well: the newest `limit` of them. */
  lemma OlderWindowIsNewest<T>(h: seq<Item<T>>, before: uint64, limit: nat, i: nat)
    requires NewestFirst(h) && i < |h|
    ensures var s := BeforeAt(h, before);
            s <= i < s + Taken(|h| - s, limit)
            <==> && (before == 0 || h[i].id < before)
                 && (limit == 0 || i < limit || (before != 0 && h[i - limit].id >= before))
  {
    if before != 0 {
      AboveSplits(h, before - 1);
    }
  }

  /** MessagesAfter's window holds the oldest `limit` items above the cursor. */
  lemma NewerWindowIsOldest<T>(h: seq<Item<T>>, after: uint64, limit: nat, i: nat)
    requires NewestFirst(h) && i < |h|
    ensures var e := Above(h, after);
            e - Taken(e, limit) <= i < e
            <==> h[i].id > after && (limit == 0 || i + limit >= |h| || h[i + limit].id <= after)
  {
    AboveSplits(h, after);
  }

  /** The backward ascending window below a real cursor holds the largest `limit` ids below it. */
  lemma LowerWindowIsLargest<T>(h: seq<Item<T>>, before: uint64, limit: nat, page: nat, i: nat)
    requires SmallestFirst(h) && i < |h| && before != 0
    ensures var p := EndAt(h, before, limit, page);
            p - Taken(p, limit) <= i < p
            <==> h[i].id < before && (limit == 0 || i + limit >= |h| || h[i + limit].id >= before)
  {
    BelowSplits(h, before);
  }

  /** The forward ascending window holds the smallest `limit` ids above the cursor. */
  lemma HigherWindowIsSmallest<T>(h: seq<Item<T>>, after: uint64, limit: nat, i: nat)
    requires SmallestFirst(h) && i < |h|
    ensures var q := StartAt(h, after);
            q <= i < q + Taken(|h| - q, limit)
            <==> h[i].id > after && (limit == 0 || i < limit || h[i - limit].id <= after)
  {
    BelowSplits(h, after + 1);
  }

  /** A limited call makes at most limit/page requests, rounded up. */
  lemma AtMostCeiling(outage: nat, failed: bool, requests: nat, available: nat, limit: nat, page: nat)
    requires limit > 0 && page in {100, 200, 1000}
    requires RequestsExact(outage, failed, requests, available, limit, page)
    ensures requests <= (limit + page - 1) / page
  {
  }

  /** Whether a call fails depends only on how many requests the service answers. */
  lemma FailsIff(outage: nat, failed: bool, requests: nat, available: nat, limit: nat, page: nat)
    requires RequestsExact(outage, failed, requests, available, limit, page)
    ensures failed <==> Due(available, limit, Full(page, outage))
    ensures failed <==> page * outage <= available && (limit == 0 || page * outage < limit)
  {
    if !failed {
      assert page * requests <= page * outage;
    }
  }

  /** With a zero cursor GuildsBefore and ReactionsBefore start from the smallest id. They return
      what "no cursor" means for messages, the last `limit` of the list, exactly when the whole
      list fits the first page. */
  lemma ZeroCursorBackward<T>(h: seq<Item<T>>, limit: nat, page: nat)
    requires SmallestFirst(h) && page > 0
    ensures var p := EndAt(h, 0, limit, page);
            h[p - Taken(p, limit)..p] == h[|h| - Taken(|h|, limit)..] <==> |h| <= Taken(page, limit)
  {
    var p := EndAt(h, 0, limit, page);
    var l, r := h[p - Taken(p, limit)..p], h[|h| - Taken(|h|, limit)..];
    assert |l| == p == Min(|h|, Taken(page, limit));
    if |h| > Taken(page, limit) && |l| == |r| {
      assert l[0].id < r[0].id;
    }
  }

  /** With a limit of 1 the smallest of two ids is returned, not the largest. */
  lemma ZeroCursorMisses<T>(h: seq<Item<T>>)
    requires SmallestFirst(h) && |h| == 2
    ensures var p := EndAt(h, 0, 1, 200);
            h[p - Taken(p, 1)..p] == [h[0]] && h[|h| - Taken(|h|, 1)..] == [h[1]] && h[0] != h[1]
  {
  }

  /** A zero `after` cursor of MessagesAfter loses exactly the message with id 1. */
  lemma ZeroCursorForward<T>(h: seq<Item<T>>)
    requires NewestFirst(h)
    ensures Above(h, 1) == |h| <==> (forall i :: 0 <= i < |h| ==> h[i].id != 1)
  {
    AboveSplits(h, 1);
  }
}
