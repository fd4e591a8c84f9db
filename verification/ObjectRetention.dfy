/** How long the chunks of a removed version stay: until a scan of its shard at least the grace after the removal. */
module ObjectRetention {
  import opened Wrappers
  import opened ObjectStore
  import opened ObjectSafety

  /** Version `id` needs its chunk `h`: it has not been removed, or was removed at `removal`. */
  predicate Needs(versions: Versions, id: Identity, h: Hash, removal: int) {
    && id in versions && h in versions[id].payload.manifest
    && (versions[id].removed.None? || versions[id].removed == Some(removal))
  }

  /** Copy `x` is stored, a collection its node would still accept spares it, and so will those of the current sweep
      once the version's shard has been scanned. */
  ghost predicate Retained(c: Layout, s: Store, id: Identity, x: Copy, removal: int) {
    && Needs(s.versions, id, x.hash, removal)
    && x.node < |s.nodes| && x.hash in s.nodes[x.node].chunks
    && (forall m :: m in s.collections && m.node == x.node && m.generation == s.nodes[x.node].generation ==>
         x.hash in m.live)
    && (s.maintenance.Sweeping? && c.shardOf(id) in s.maintenance.shards ==> x.hash in s.maintenance.live)
  }

  /** The step is not a scan of the version's shard at a time the grace after its removal. */
  predicate WithinGrace(c: Layout, e: Step, id: Identity, removal: int) {
    e.ScanShard? && e.shard == c.shardOf(id) ==> e.now - e.grace < removal
  }

  lemma LiveVersionIsRetained(c: Layout, s: Store, id: Identity, x: Copy, removal: int)
    requires Inv(c, s) && id in s.versions && s.versions[id].removed.None? && x in s.publications[id].copies
    ensures Retained(c, s, id, x, removal)
  {
    hide OperationsOk, SessionsOk, Replayed, SessionChunks, Quorate;
    assert IntentOk(s.publications[id], id, s.versions, |s.nodes|) && Live(s.publications, s.versions, id);
    assert ByIntent(s.publications, s.versions, x) && Protected(s, x) && x == Copy(x.node, x.hash);
    forall m | m in s.collections && m.node == x.node && m.generation == s.nodes[x.node].generation
      ensures x.hash in m.live
    {
      assert Spares(s, m);
    }
  }

  lemma WritesRetain(c: Layout, s: Store, e: Step, id: Identity, x: Copy, removal: int)
    requires Spared(s) && Retained(c, s, id, x, removal)
    requires Writes(e)
    requires WriteStep(s, e).Some?
    ensures Retained(c, WriteStep(s, e).value, id, x, removal)
  {
    hide Quorate, Contiguous, Assembled, PartCopies, Conflicts, Protected;
    var t := WriteStep(s, e).value;
    forall m | m in t.collections && m.node == x.node && m.generation == t.nodes[x.node].generation
      ensures x.hash in m.live
    {
      assert Spares(s, m);
    }
  }

  lemma PublicationsRetain(c: Layout, s: Store, e: Step, id: Identity, x: Copy, removal: int)
    requires Retained(c, s, id, x, removal)
    requires Publishes(e)
    requires PublishStep(s, e).Some? && Needs(PublishStep(s, e).value.versions, id, x.hash, removal)
    ensures Retained(c, PublishStep(s, e).value, id, x, removal)
  {
    hide Quorate, Contiguous, Assembled, PartCopies, Conflicts, Needs;
  }

  lemma SweepsRetain(c: Layout, s: Store, e: Step, id: Identity, x: Copy, removal: int)
    requires LayoutOk(c) && Spared(s) && Retained(c, s, id, x, removal) && WithinGrace(c, e, id, removal)
    requires !Writes(e) && !Publishes(e)
    requires SweepStep(c, s, e).Some?
    ensures Retained(c, SweepStep(c, s, e).value, id, x, removal)
  {
    hide Replayed, SessionChunks, Protected;
    var t := SweepStep(c, s, e).value;
    forall m | m in t.collections && m.node == x.node && m.generation == t.nodes[x.node].generation
      ensures x.hash in m.live
    {
      if m in s.collections { assert Spares(s, m); }
    }
  }

  lemma WritesKeepVersions(s: Store, e: Step)
    requires Writes(e)
    requires WriteStep(s, e).Some?
    ensures WriteStep(s, e).value.versions == s.versions
  {
    hide Quorate, PartFits, WithPart, Conflicts, Stored;
  }

  lemma SweepsKeepVersions(c: Layout, s: Store, e: Step)
    requires !Writes(e) && !Publishes(e)
    requires SweepStep(c, s, e).Some?
    ensures SweepStep(c, s, e).value.versions == s.versions
  {
    hide References, SessionChunks, Replayed, Collected, Expired;
  }

  /** A version's content never changes, and its removal time is set once. */
  lemma VersionsKeep(c: Layout, s: Store, e: Step, id: Identity)
    requires id in s.versions && Next(c, s, e).Some?
    ensures var t := Next(c, s, e).value;
      && id in t.versions && t.versions[id].payload == s.versions[id].payload
      && (s.versions[id].removed.Some? ==> t.versions[id].removed == s.versions[id].removed)
  {
    hide WriteStep, SweepStep, Contiguous, Assembled, PartCopies, Conflicts;
    if Writes(e) {
      WritesKeepVersions(s, e);
    } else if !Publishes(e) {
      SweepsKeepVersions(c, s, e);
    }
  }

  lemma NextRetains(c: Layout, s: Store, e: Step, id: Identity, x: Copy, removal: int)
    requires LayoutOk(c) && Spared(s) && Retained(c, s, id, x, removal) && WithinGrace(c, e, id, removal)
    requires Next(c, s, e).Some? && Needs(Next(c, s, e).value.versions, id, x.hash, removal)
    ensures Retained(c, Next(c, s, e).value, id, x, removal)
  {
    hide LayoutOk, Spared, Retained, WithinGrace, WriteStep, PublishStep, SweepStep, Needs;
    if Writes(e) {
      WritesRetain(c, s, e, id, x, removal);
    } else if Publishes(e) {
      PublicationsRetain(c, s, e, id, x, removal);
    } else {
      SweepsRetain(c, s, e, id, x, removal);
    }
  }

  lemma {:induction false} VersionsKeepOverRun(c: Layout, s: Store, steps: seq<Step>, id: Identity)
    requires id in s.versions && Run(c, s, steps).Some?
    ensures var t := Run(c, s, steps).value;
      && id in t.versions && t.versions[id].payload == s.versions[id].payload
      && (s.versions[id].removed.Some? ==> t.versions[id].removed == s.versions[id].removed)
    decreases |steps|
  {
    hide Next;
    if steps != [] {
      VersionsKeep(c, s, steps[0], id);
      VersionsKeepOverRun(c, Next(c, s, steps[0]).value, steps[1..], id);
    }
  }

  lemma {:induction false} RunRetains(c: Layout, s: Store, steps: seq<Step>, id: Identity, x: Copy, removal: int)
    requires LayoutOk(c) && Inv(c, s) && Retained(c, s, id, x, removal) && Run(c, s, steps).Some?
    requires forall i :: 0 <= i < |steps| ==> WithinGrace(c, steps[i], id, removal)
    requires Needs(Run(c, s, steps).value.versions, id, x.hash, removal)
    ensures Retained(c, Run(c, s, steps).value, id, x, removal)
    decreases |steps|
  {
    hide Next, LayoutOk, Kept, SweepOk, RecordsOk, Spared, WithinGrace;
    if steps != [] {
      var t := Next(c, s, steps[0]).value;
      VersionsKeep(c, s, steps[0], id);
      VersionsKeepOverRun(c, t, steps[1..], id);
      NextKeepsInv(c, s, steps[0]);
      NextRetains(c, s, steps[0], id, x, removal);
      RunRetains(c, t, steps[1..], id, x, removal);
    }
  }

  lemma AfterEveryScan(c: Layout, steps: seq<Step>, id: Identity) returns (removal: int)
    ensures forall i :: 0 <= i < |steps| ==> WithinGrace(c, steps[i], id, removal)
  {
    removal := 0;
    for n := 0 to |steps|
      invariant forall i :: 0 <= i < n ==> WithinGrace(c, steps[i], id, removal)
    {
      if steps[n].ScanShard? && steps[n].now - steps[n].grace >= removal {
        removal := steps[n].now - steps[n].grace + 1;
      }
    }
  }

  /** A copy acknowledged for a version is not deleted when the version is removed: it stays on its node until a scan of
      that version's shard looks back from at least the grace after the removal. */
  lemma RemovedVersionsOutliveGrace(c: Layout, nodes: nat, past: seq<Step>, future: seq<Step>, id: Identity, x: Copy)
    requires LayoutOk(c) && Run(c, Empty(nodes), past).Some?
    requires var s := Run(c, Empty(nodes), past).value;
      id in s.versions && s.versions[id].removed.None? && id in s.publications && x in s.publications[id].copies
    requires Run(c, Run(c, Empty(nodes), past).value, future).Some?
    requires var t := Run(c, Run(c, Empty(nodes), past).value, future).value;
      id in t.versions ==> t.versions[id].removed.Some? ==>
        forall i :: 0 <= i < |future| ==> WithinGrace(c, future[i], id, t.versions[id].removed.value)
    ensures var t := Run(c, Run(c, Empty(nodes), past).value, future).value;
      x.node < |t.nodes| && x.hash in t.nodes[x.node].chunks
  {
    hide Run, LayoutOk, Kept, Spared, SweepOk, OperationsOk, SessionsOk, WithinGrace, Protected;
    EmptyInv(c, nodes);
    RunKeepsInv(c, Empty(nodes), past);
    var s := Run(c, Empty(nodes), past).value;
    RunKeepsInv(c, s, future);
    var t := Run(c, s, future).value;
    VersionsKeepOverRun(c, s, future, id);
    var removal;
    if t.versions[id].removed.Some? {
      removal := t.versions[id].removed.value;
    } else {
      removal := AfterEveryScan(c, future, id);
    }
    LiveVersionIsRetained(c, s, id, x, removal);
    RunRetains(c, s, future, id, x, removal);
  }

  // ---------------------------------------------------------------- and no longer than that

  /** Nothing that lives needs the chunk: every version with it was removed at least the grace ago. */
  ghost predicate Unneeded(s: Store, h: Hash, limit: int) {
    && (forall id :: id in s.versions && h in s.versions[id].payload.manifest ==>
          s.versions[id].removed.Some? && s.versions[id].removed.value <= limit)
    && h !in SessionChunks(s.uploads)
  }

  /** Nothing but the references of the sweep has moved on. */
  predicate SameButLive(s: Store, t: Store) {
    && s.maintenance.Sweeping? && t.maintenance.Sweeping? && t == s.(maintenance := t.maintenance)
    && t.maintenance.fences == s.maintenance.fences && t.maintenance.uploads == s.maintenance.uploads
  }

  /** Scanning shard after shard collects no reference to a chunk nothing needs. */
  lemma {:induction false} ScansPass(c: Layout, s: Store, k: nat, h: Hash, now: int, grace: nat)
    returns (steps: seq<Step>, t: Store)
    requires s.maintenance.Sweeping? && h !in s.maintenance.live && Unneeded(s, h, now - grace)
    ensures Run(c, s, steps) == Some(t) && SameButLive(s, t) && h !in t.maintenance.live
    ensures forall i :: 0 <= i < k ==> i in t.maintenance.shards
  {
    hide Run, Next;
    if k == 0 {
      steps, t := [], s;
      NoSteps(c, s);
    } else {
      var first, u := ScansPass(c, s, k - 1, h, now, grace);
      var e := ScanShard(k - 1, now, grace);
      t := ScanPasses(c, u, e, h);
      RunTwice(c, s, first, [e]);
      Two(c, u, e, []);
      NoSteps(c, t);
      assert [e] + [] == [e];
      steps := first + [e];
    }
  }

  lemma ScanPasses(c: Layout, s: Store, e: Step, h: Hash) returns (t: Store)
    requires e.ScanShard? && s.maintenance.Sweeping? && h !in s.maintenance.live && Unneeded(s, h, e.now - e.grace)
    ensures Next(c, s, e) == Some(t) && SameButLive(s, t) && h !in t.maintenance.live
    ensures t.maintenance.shards == s.maintenance.shards + {e.shard}
  {
    t := Next(c, s, e).value;
  }

  lemma ExpiryNeedsLess(uploads: map<string, Upload>, now: int)
    ensures SessionChunks(Expired(uploads, now)) <= SessionChunks(uploads)
  {
    var after := Expired(uploads, now);
    forall h | h in SessionChunks(after) ensures h in SessionChunks(uploads) {
      var u, k :| u in after && SessionLives(after[u]) && k in after[u].parts && h in after[u].parts[k].content;
      assert u in uploads && SessionLives(uploads[u]) && k in uploads[u].parts && h in uploads[u].parts[k].content;
    }
  }

  /** A sweep starts and captures the fence of one node. */
  lemma SweepBegins(c: Layout, s: Store, n: nat, now: int) returns (steps: seq<Step>, t: Store)
    requires s.maintenance.Off? && s.operations == map[] && Replayed(s.publications, s.uploads) && n < |s.nodes|
    ensures Run(c, s, steps) == Some(t) && t.nodes == s.nodes && t.versions == s.versions
    ensures t.uploads == Expired(s.uploads, now)
    ensures t.maintenance == Sweeping(map[n := s.nodes[n].generation], {}, {}, false)
  {
    hide Run, Replayed, Expired;
    var s1 := s.(maintenance := Replaying);
    var s2 := s.(uploads := Expired(s.uploads, now), maintenance := Sweeping(map[], {}, {}, false));
    t := s2.(maintenance := Sweeping(map[n := s.nodes[n].generation], {}, {}, false));
    assert Next(c, s, StartMaintenance) == Some(s1) && Next(c, s1, Sweep(now)) == Some(s2);
    assert Next(c, s2, Capture(n)) == Some(t);
    TwoSteps(c, s1, Sweep(now), Capture(n), s2, t);
    Two(c, s, StartMaintenance, [Sweep(now), Capture(n)]);
    steps := [StartMaintenance] + [Sweep(now), Capture(n)];
  }

  /** A finished scan without the chunk lets a collection delete it. */
  lemma SweepCollects(c: Layout, s: Store, n: nat, h: Hash, now: int, grace: nat) returns (steps: seq<Step>, t: Store)
    requires s.maintenance.Sweeping? && h !in s.maintenance.live && h !in SessionChunks(s.uploads)
    requires forall i :: 0 <= i < c.shards ==> i in s.maintenance.shards
    requires n < |s.nodes| && s.maintenance.fences == map[n := s.nodes[n].generation]
    requires h in s.nodes[n].chunks && s.nodes[n].chunks[h] <= now - grace
    ensures Run(c, s, steps) == Some(t) && n < |t.nodes| && h !in t.nodes[n].chunks
  {
    hide Run, SessionChunks;
    var live := s.maintenance.live + SessionChunks(s.uploads);
    var s1 := s.(maintenance := s.maintenance.(live := live, uploads := true));
    var m := Collection(n, live, grace, s.nodes[n].generation);
    var s2 := s1.(collections := s1.collections + {m});
    t := s2.(nodes := s2.nodes[n := Node(s.nodes[n].chunks - {h}, s.nodes[n].generation + 1)]);
    assert Next(c, s, ScanUploads) == Some(s1) && Next(c, s1, Order(n, grace)) == Some(s2);
    assert Collectable(s.nodes[n], live, now - grace, h);
    assert Next(c, s2, Collect(m, now, {h})) == Some(t);
    TwoSteps(c, s1, Order(n, grace), Collect(m, now, {h}), s2, t);
    Two(c, s, ScanUploads, [Order(n, grace), Collect(m, now, {h})]);
    steps := [ScanUploads] + [Order(n, grace), Collect(m, now, {h})];
  }

  /** The bound is the right one: once every version with the chunk was removed at least the grace ago, no session has
      it and the copy itself is that old, one sweep can delete it. */
  lemma UnneededChunksCanGo(c: Layout, s: Store, n: nat, h: Hash, now: int, grace: nat)
    returns (steps: seq<Step>, t: Store)
    requires s.maintenance.Off? && s.operations == map[] && Replayed(s.publications, s.uploads)
    requires n < |s.nodes| && h in s.nodes[n].chunks && s.nodes[n].chunks[h] <= now - grace
    requires Unneeded(s, h, now - grace)
    ensures Run(c, s, steps) == Some(t) && n < |t.nodes| && h !in t.nodes[n].chunks
  {
    hide Run, Replayed, SessionChunks, Expired;
    var first, a := SweepBegins(c, s, n, now);
    ExpiryNeedsLess(s.uploads, now);
    var second, b := ScansPass(c, a, c.shards, h, now, grace);
    var third;
    third, t := SweepCollects(c, b, n, h, now, grace);
    RunTwice(c, s, first, second);
    RunTwice(c, s, first + second, third);
    steps := first + second + third;
  }
}
