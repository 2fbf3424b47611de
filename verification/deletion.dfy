// Client.DeleteMessages (api/message.go): a list of ids is deleted in batches.

module Deletion {
  import opened Machine

  const MAX_DELETE: int := 100

  /** One request: the single-message endpoint or the bulk endpoint. */
  datatype Request = Single(id: uint64) | Bulk(ids: seq<uint64>)

  function Targets(r: Request): seq<uint64> {
    match r case Single(id) => [id] case Bulk(ids) => ids
  }

  function AllTargets(rs: seq<Request>): seq<uint64> {
    if rs == [] then [] else Targets(rs[0]) + AllTargets(rs[1..])
  }

  /** The batches of the loop from an offset on. */
  function Chunks(ids: seq<uint64>, start: nat): seq<Request>
    decreases |ids| - start
  {
    if start >= |ids| then []
    else [Bulk(ids[start..Min(|ids|, start + MAX_DELETE)])] + Chunks(ids, start + MAX_DELETE)
  }

  /** All requests of a call during which none fails. */
  function Plan(ids: seq<uint64>): seq<Request> {
    if |ids| == 1 then [Single(ids[0])] else Chunks(ids, 0)
  }

  lemma ChunkStep(ids: seq<uint64>, start: nat)
    ensures start >= |ids| ==> Chunks(ids, start) == []
    ensures start < |ids| ==>
      Chunks(ids, start) == [Bulk(ids[start..Min(|ids|, start + MAX_DELETE)])] + Chunks(ids, start + MAX_DELETE)
  {
  }

  lemma OneChunk(ids: seq<uint64>, start: nat)
    requires start < |ids| <= start + MAX_DELETE
    ensures Chunks(ids, start) == [Bulk(ids[start..])]
  {
    ChunkStep(ids, start);
    ChunkStep(ids, start + MAX_DELETE);
    assert ids[start..|ids|] == ids[start..];
  }

  /** DeleteMessages against a service that answers `outage` requests before one fails. */
  method DeleteMessages(ids: seq<uint64>, outage: nat) returns (sent: seq<Request>, failed: bool)
    ensures failed <==> outage < |Plan(ids)|
    ensures sent == if failed then Plan(ids)[..outage + 1] else Plan(ids)
  {
    hide Chunks;
    ChunkStep(ids, 0);
    if |ids| == 0 {
      return [], false;
    } else if |ids| == 1 {
      return [Single(ids[0])], outage == 0;
    } else if |ids| <= MAX_DELETE {
      OneChunk(ids, 0);
      assert ids[0..] == ids;
      return [Bulk(ids)], outage == 0;
    }
    sent, failed := [], false;
    var start := 0;
    while start < |ids|
      invariant 0 <= start && |sent| <= outage && !failed
      invariant Chunks(ids, 0) == sent + Chunks(ids, start)
    {
      ChunkStep(ids, start);
      var end := Min(|ids|, start + MAX_DELETE);
      sent := sent + [Bulk(ids[start..end])];
      if |sent| > outage {
        return sent, true;
      }
      start := start + MAX_DELETE;
    }
    ChunkStep(ids, start);
  }

  lemma {:induction false} ChunksCover(ids: seq<uint64>, start: nat)
    requires start <= |ids|
    ensures AllTargets(Chunks(ids, start)) == ids[start..]
    ensures |Chunks(ids, start)| == (|ids| - start + MAX_DELETE - 1) / MAX_DELETE
    decreases |ids| - start
  {
    if start + MAX_DELETE <= |ids| {
      ChunksCover(ids, start + MAX_DELETE);
    } else if start < |ids| {
      OneChunk(ids, start);
      assert Chunks(ids, start)[1..] == [];
    }
  }

  /** Every id is deleted once, in order, in messageIDs/100 requests rounded up. */
  lemma PlanCoversAll(ids: seq<uint64>)
    ensures AllTargets(Plan(ids)) == ids
    ensures |Plan(ids)| == (|ids| + 99) / 100
  {
    ChunksCover(ids, 0);
    if |ids| == 1 {
      assert AllTargets(Plan(ids)[1..]) == [];
    }
  }

  /** Several ids go to the bulk endpoint in full batches of 100, and what is left over in the last one. */
  lemma {:induction false} ChunkAt(ids: seq<uint64>, start: nat, i: nat)
    requires start + 100 * i < |ids|
    ensures i < |Chunks(ids, start)|
    ensures Chunks(ids, start)[i]
            == Bulk(ids[start + 100 * i..if |ids| < start + 100 * i + 100 then |ids| else start + 100 * i + 100])
    decreases i
  {
    hide Chunks;
    ChunkStep(ids, start);
    if i > 0 {
      ChunkAt(ids, start + MAX_DELETE, i - 1);
    }
  }

  lemma BatchIs(ids: seq<uint64>, i: nat)
    requires |ids| > 1 && 100 * i < |ids|
    ensures i < |Plan(ids)|
    ensures Plan(ids)[i] == Bulk(ids[100 * i..if |ids| < 100 * i + 100 then |ids| else 100 * i + 100])
  {
    ChunkAt(ids, 0, i);
  }

  /** No request names more ids than the service accepts, and none is empty. */
  predicate SizesFit(rs: seq<Request>) {
    rs == [] || (0 < |Targets(rs[0])| <= 100 && SizesFit(rs[1..]))
  }

  /** Some bulk request carries a single id. */
  predicate HasLoneBulk(rs: seq<Request>) {
    rs != [] && ((rs[0].Bulk? && |Targets(rs[0])| == 1) || HasLoneBulk(rs[1..]))
  }

  lemma {:induction false} ChunkSizes(ids: seq<uint64>, start: nat)
    ensures SizesFit(Chunks(ids, start))
    ensures HasLoneBulk(Chunks(ids, start)) <==> start < |ids| && (|ids| - start) % MAX_DELETE == 1
    decreases |ids| - start
  {
    hide Chunks;
    ChunkStep(ids, start);
    if start < |ids| {
      ChunkSizes(ids, start + MAX_DELETE);
      assert Chunks(ids, start)[1..] == Chunks(ids, start + MAX_DELETE);
      LastChunk(|ids| - start);
    }
  }

  /** A last batch of one is left over when the count is 1 or leaves 1 after full batches. */
  lemma LastChunk(n: nat)
    ensures n > MAX_DELETE ==> (n % MAX_DELETE == 1 <==> (n - MAX_DELETE) % MAX_DELETE == 1)
    ensures 0 < n <= MAX_DELETE ==> (n % MAX_DELETE == 1 <==> n == 1)
  {
  }

  /** A lone id goes to the single-message endpoint when it is the whole list, but not when it is
      left over after full batches. */
  lemma LoneBulk(ids: seq<uint64>)
    ensures SizesFit(Plan(ids))
    ensures HasLoneBulk(Plan(ids)) <==> |ids| % 100 == 1 && |ids| != 1
  {
    ChunkSizes(ids, 0);
    if |ids| == 1 {
      assert Plan(ids)[1..] == [];
    }
  }
}
