/** A data node as it runs: its index and its collection fence, changed in place. */
module DataNode {
  import opened Wrappers
  import opened ObjectStore

  /** Everything a collection may delete. */
  function Candidates(n: Node, m: Collection, now: int): set<Hash> {
    set h | h in n.chunks && Collectable(n, m.live, now - m.grace, h)
  }

  class DataNodeProcess {
    var chunks: map<Hash, int>
    var generation: nat

    function Contents(): Node
      reads this
    {
      Node(chunks, generation)
    }

    constructor ()
      ensures Contents() == Node(map[], 0)
    {
      chunks, generation := map[], 0;
    }

    /** `put`: the fence moves first, then the chunk is stored unless it is already there. */
    method Put(h: Hash, now: int) returns (duplicate: bool)
      modifies this
      ensures Contents() == Stored(old(Contents()), h, now) && duplicate == (h in old(chunks))
    {
      generation := generation + 1;
      if h in chunks { return true; }
      chunks := chunks[h := now];
      duplicate := false;
    }

    /** `collect`: a moved fence refuses; otherwise the fence moves and every candidate is deleted, one by one. */
    method Collect(m: Collection, now: int) returns (removed: Option<nat>)
      modifies this
      ensures removed.None? <==> m.generation != old(generation)
      ensures removed.None? ==> Contents() == old(Contents())
      ensures removed.Some? ==>
        var victims := Candidates(old(Contents()), m, now);
        Some(Contents()) == Collected(old(Contents()), m, now, victims) && removed.value == |victims|
    {
      if m.generation != generation { return None; }
      generation := generation + 1;
      var candidates := set h | h in chunks && chunks[h] <= now - m.grace && h !in m.live;
      assert candidates == Candidates(old(Contents()), m, now);
      var left, count: nat := candidates, 0;
      while left != {}
        invariant left <= candidates && count + |left| == |candidates| && generation == old(generation) + 1
        invariant chunks == old(chunks) - (candidates - left)
      {
        assert (forall h :: h !in left) ==> left == {};
        var h: Hash :| h in left;
        assert candidates - (left - {h}) == (candidates - left) + {h};
        left := left - {h};
        chunks := chunks - {h};
        count := count + 1;
      }
      assert candidates - left == candidates;
      removed := Some(count);
    }

    /** `recover` and `compact`: the index is rebuilt from what is stored, under a new fence. */
    method Rebuild()
      modifies this
      ensures chunks == old(chunks) && generation == old(generation) + 1
    {
      generation := generation + 1;
    }
  }
}
