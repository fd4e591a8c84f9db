/** Every step of every actor keeps stored what it must, even under zero grace. */
module ObjectSafety {
  import opened Wrappers
  import opened ObjectStore

  // ---------------------------------------------------------------- steps that protect no more than before

  lemma ShrinkingKeeps(s: Store, t: Store)
    requires Kept(s) && Spared(s) && t.nodes == s.nodes && t.collections == s.collections
    requires forall x :: Protected(t, x) ==> Protected(s, x)
    ensures Kept(t) && Spared(t)
  {
    hide Protected;
    forall m | m in t.collections ensures Spares(t, m) { assert Spares(s, m); }
  }

  lemma BeginKeepsInv(c: Layout, s: Store, op: string, wanted: seq<Hash>)
    requires Inv(c, s) && WriteStep(s, Begin(op, wanted)).Some?
    ensures Inv(c, WriteStep(s, Begin(op, wanted)).value)
  {
    hide Kept, Spared, ByIntent, BySession, IntentsOk, SessionsOk;
    ShrinkingKeeps(s, WriteStep(s, Begin(op, wanted)).value);
  }

  lemma LeaveKeepsInv(c: Layout, s: Store, op: string)
    requires Inv(c, s)
    ensures Inv(c, WriteStep(s, Leave(op)).value)
  {
    hide Kept, Spared, ByIntent, BySession, IntentsOk, SessionsOk;
    ShrinkingKeeps(s, WriteStep(s, Leave(op)).value);
  }

  lemma OpenKeepsInv(c: Layout, s: Store, e: Step)
    requires Inv(c, s) && e.Open? && WriteStep(s, e).Some?
    ensures Inv(c, WriteStep(s, e).value)
  {
    hide Kept, Spared, ByIntent, ByOperation, IntentsOk, OperationsOk;
    ShrinkingKeeps(s, WriteStep(s, e).value);
  }

  /** Acknowledged copies only add up. */
  lemma MoreCopies(manifest: seq<Hash>, a: set<Copy>, b: set<Copy>, nodes: nat)
    requires Quorate(manifest, a) && Within(a, manifest, nodes) && Within(b, manifest, nodes)
    ensures Quorate(manifest, a + b) && Within(a + b, manifest, nodes)
  {
    forall i | 0 <= i < |manifest| ensures |Nodes(a + b, manifest[i])| >= QUORUM {
      assert Nodes(a + b, manifest[i]) == Nodes(a, manifest[i]) + (Nodes(b, manifest[i]) - Nodes(a, manifest[i]));
    }
  }

  /** Recording an intent, new or again, keeps the catalog in order. */
  lemma IntendedKeepsIntents(s: Store, id: Identity, payload: Payload, copies: set<Copy>)
    requires IntentsOk(s.publications, s.versions, s.publishing, |s.nodes|) && !Conflicts(s, id, payload)
    requires Within(copies, payload.manifest, |s.nodes|) && Quorate(payload.manifest, copies)
    ensures var t := Intended(s, id, payload, copies); IntentsOk(t.publications, t.versions, t.publishing, |t.nodes|)
  {
    hide Quorate, Within;
    var t := Intended(s, id, payload, copies);
    if id in s.publications {
      assert IntentOk(s.publications[id], id, s.versions, |s.nodes|);
      MoreCopies(payload.manifest, s.publications[id].copies, copies, |s.nodes|);
    }
    forall i | i in t.publications ensures IntentOk(t.publications[i], i, t.versions, |t.nodes|) {
      if i != id { assert IntentOk(s.publications[i], i, s.versions, |s.nodes|); }
    }
  }

  lemma IntendedProtects(s: Store, id: Identity, payload: Payload, copies: set<Copy>, x: Copy)
    requires ByIntent(Intended(s, id, payload, copies).publications, s.versions, x)
    ensures ByIntent(s.publications, s.versions, x) || x in copies
  {
    var t := Intended(s, id, payload, copies);
    var i :| Live(t.publications, s.versions, i) && x in t.publications[i].copies;
    if x !in copies { assert Live(s.publications, s.versions, i); }
  }

  /** The intent of a single upload takes over the copies its operation protected. */
  lemma CommitObjectKeepsInv(c: Layout, s: Store, op: string, id: Identity, payload: Payload)
    requires Inv(c, s) && WriteStep(s, CommitObject(op, id, payload)).Some?
    ensures Inv(c, WriteStep(s, CommitObject(op, id, payload)).value)
  {
    hide Kept, Spared, ByIntent, BySession, IntentsOk, SessionsOk, Quorate, Within;
    var t := WriteStep(s, CommitObject(op, id, payload)).value;
    var o := s.operations[op];
    IntendedKeepsIntents(s, id, payload, o.acked);
    forall x | Protected(t, x) ensures Protected(s, x) {
      if ByIntent(t.publications, t.versions, x) { IntendedProtects(s, id, payload, o.acked, x); }
    }
    ShrinkingKeeps(s, t);
  }

  lemma CommitPartKeepsInv(c: Layout, s: Store, e: Step)
    requires Inv(c, s) && e.CommitPart? && WriteStep(s, e).Some?
    ensures Inv(c, WriteStep(s, e).value)
  {
    hide Kept, Spared, ByIntent, IntentsOk, Quorate, Within, Contiguous, Assembled, SessionChunks;
    var t := WriteStep(s, e).value;
    var o, u := s.operations[e.op], s.uploads[e.upload];
    forall x | BySession(t.uploads, x) ensures BySession(s.uploads, x) || ByOperation(s.operations, x) {
      var v, k :| v in t.uploads && SessionLives(t.uploads[v]) && k in t.uploads[v].parts
        && x in t.uploads[v].parts[k].copies;
      if v != e.upload || k != e.number { assert k in s.uploads[v].parts && x in s.uploads[v].parts[k].copies; }
    }
    assert SessionOk(u, s.versions, |s.nodes|);
    if e.number in u.parts {
      MoreCopies(o.wanted, o.acked, u.parts[e.number].copies, |s.nodes|);
    } else {
      assert o.acked + {} == o.acked;
    }
    assert SessionOk(t.uploads[e.upload], s.versions, |s.nodes|);
    ShrinkingKeeps(s, t);
  }

  /** An arriving write protects at most the copy it stores. */
  lemma PutProtects(s: Store, e: Step, x: Copy)
    requires e.Put? && WriteStep(s, e).Some? && Protected(WriteStep(s, e).value, x)
    ensures x == Copy(e.node, e.hash) || Protected(s, x)
  {
    hide ByIntent, BySession;
    var t := WriteStep(s, e).value;
    if ByOperation(t.operations, x) && x != Copy(e.node, e.hash) {
      var o :| o in t.operations && x in t.operations[o].acked;
      assert o in s.operations && x in s.operations[o].acked;
    }
  }

  lemma PutMovesFence(s: Store, e: Step)
    requires e.Put? && WriteStep(s, e).Some?
    ensures var t := WriteStep(s, e).value;
      && e.node < |s.nodes| == |t.nodes| && t.nodes == s.nodes[e.node := Stored(s.nodes[e.node], e.hash, e.now)]
      && t == s.(nodes := t.nodes, operations := t.operations) && (s.operations == map[] ==> t.operations == map[])
      && (OperationsOk(s.operations, |s.nodes|) ==> OperationsOk(t.operations, |t.nodes|))
  {
  }

  /** An arriving write moves the fence of its node, so no collection sent before is accepted there any more. */
  lemma PutKeepsInv(c: Layout, s: Store, e: Step)
    requires Inv(c, s) && e.Put? && WriteStep(s, e).Some?
    ensures Inv(c, WriteStep(s, e).value)
    ensures forall m, now, victims :: m in s.collections && m.node == e.node ==>
      Collected(WriteStep(s, e).value.nodes[e.node], m, now, victims).None?
  {
    hide WriteStep, Protected, IntentsOk, OperationsOk, SessionsOk, Replayed, SessionChunks, ShardsCovered;
    var t := WriteStep(s, e).value;
    PutMovesFence(s, e);
    forall m | m in s.collections
      ensures Spares(t, m)
      ensures m.node == e.node ==> m.generation < t.nodes[e.node].generation
    {
      assert Spares(s, m);
      forall h | Protected(t, Copy(m.node, h)) && m.node != e.node ensures Protected(s, Copy(m.node, h)) {
        PutProtects(s, e, Copy(m.node, h));
      }
    }
    forall x | Protected(t, x) ensures x.node < |t.nodes| && x.hash in t.nodes[x.node].chunks { PutProtects(s, e, x); }
  }

  // ---------------------------------------------------------------- publication

  lemma ConcatMembers(parts: map<nat, Part>, n: nat, k: nat)
    requires 1 <= k <= n && k in parts
    ensures forall h :: h in parts[k].content ==> h in Concat(parts, n)
  {
    if n > k { ConcatMembers(parts, n - 1, k); }
  }

  lemma {:induction false} ConcatComes(parts: map<nat, Part>, n: nat, h: Hash) returns (k: nat)
    requires h in Concat(parts, n)
    ensures k in parts && 1 <= k <= n && h in parts[k].content
  {
    if h in Concat(parts, n - 1) { k := ConcatComes(parts, n - 1, h); } else { k := n; }
  }

  /** The parts of a frozen session hold a quorum of every chunk of its manifest. */
  lemma PartsBackManifest(u: Upload, versions: Versions, nodes: nat)
    requires SessionOk(u, versions, nodes) && Contiguous(u.parts)
    ensures Within(PartCopies(u.parts), Concat(u.parts, |u.parts|), nodes)
      && Quorate(Concat(u.parts, |u.parts|), PartCopies(u.parts))
  {
    var all, manifest := PartCopies(u.parts), Concat(u.parts, |u.parts|);
    forall x | x in all ensures x.hash in manifest && x.node < nodes {
      var k :| k in u.parts && x in u.parts[k].copies;
      ConcatMembers(u.parts, |u.parts|, k);
    }
    forall i | 0 <= i < |manifest| ensures |Nodes(all, manifest[i])| >= QUORUM {
      var k := ConcatComes(u.parts, |u.parts|, manifest[i]);
      var j :| 0 <= j < |u.parts[k].content| && u.parts[k].content[j] == manifest[i];
      var few := Nodes(u.parts[k].copies, manifest[i]);
      assert u.parts[k].copies <= all;
      assert few <= Nodes(all, manifest[i]);
      assert Nodes(all, manifest[i]) == few + (Nodes(all, manifest[i]) - few);
    }
  }

  lemma SessionCopies(sessions: Sessions, u: string, x: Copy)
    requires u in sessions && SessionLives(sessions[u]) && x in PartCopies(sessions[u].parts)
    ensures BySession(sessions, x)
  {
    var k :| k in sessions[u].parts && x in sessions[u].parts[k].copies;
  }

  /** Changing only the stage and the frozen manifest of one session never protects more, unless it revives it. */
  lemma RestagedProtects(sessions: Sessions, u: string, v: Upload, x: Copy)
    requires u in sessions && v.parts == sessions[u].parts && (SessionLives(v) ==> SessionLives(sessions[u]))
    requires BySession(sessions[u := v], x)
    ensures BySession(sessions, x)
  {
    var after := sessions[u := v];
    var w, k :| w in after && SessionLives(after[w]) && k in after[w].parts && x in after[w].parts[k].copies;
    assert w in sessions && SessionLives(sessions[w]) && k in sessions[w].parts;
  }

  lemma FreezeKeepsInv(c: Layout, s: Store, u: string, now: int)
    requires Inv(c, s) && PublishStep(s, Freeze(u, now)).Some?
    ensures Inv(c, PublishStep(s, Freeze(u, now)).value)
  {
    hide Kept, Spared, ByIntent, ByOperation, BySession, IntentsOk, OperationsOk, Quorate, Within, Contiguous, Concat;
    var t := PublishStep(s, Freeze(u, now)).value;
    forall x | Protected(t, x) ensures Protected(s, x) {
      if BySession(t.uploads, x) { RestagedProtects(s.uploads, u, t.uploads[u], x); }
    }
    assert SessionOk(s.uploads[u], s.versions, |s.nodes|);
    assert SessionOk(t.uploads[u], t.versions, |t.nodes|);
    assert SessionsOk(t.uploads, t.versions, |t.nodes|) && SweepOk(c, t);
    ShrinkingKeeps(s, t);
  }

  lemma AbortKeepsInv(c: Layout, s: Store, u: string)
    requires Inv(c, s) && PublishStep(s, Abort(u)).Some?
    ensures Inv(c, PublishStep(s, Abort(u)).value)
  {
    hide Kept, Spared, ByIntent, ByOperation, BySession, IntentsOk, OperationsOk, Quorate, Within, Contiguous,
      Assembled;
    var t := PublishStep(s, Abort(u)).value;
    forall x | Protected(t, x) ensures Protected(s, x) {
      if BySession(t.uploads, x) { RestagedProtects(s.uploads, u, t.uploads[u], x); }
    }
    assert SessionOk(s.uploads[u], s.versions, |s.nodes|);
    ShrinkingKeeps(s, t);
  }

  /** Conclusion hands the chunks from the session to its version. */
  lemma ConcludeKeepsInv(c: Layout, s: Store, u: string)
    requires Inv(c, s) && PublishStep(s, Conclude(u)).Some?
    ensures Inv(c, PublishStep(s, Conclude(u)).value)
  {
    hide Kept, Spared, ByIntent, ByOperation, BySession, OperationsOk, Quorate, Within, Contiguous, Concat;
    var t := PublishStep(s, Conclude(u)).value;
    forall x | Protected(t, x) ensures Protected(s, x) {
      if BySession(t.uploads, x) { RestagedProtects(s.uploads, u, t.uploads[u], x); }
    }
    assert SessionOk(s.uploads[u], s.versions, |s.nodes|);
    assert IntentOk(s.publications[s.uploads[u].identity], s.uploads[u].identity, s.versions, |s.nodes|);
    assert SessionOk(t.uploads[u], t.versions, |t.nodes|);
    ShrinkingKeeps(s, t);
  }

  /** The intent of a frozen session is backed by the copies of its parts. */
  lemma PrepareKeepsInv(c: Layout, s: Store, u: string)
    requires Inv(c, s) && PublishStep(s, Prepare(u)).Some?
    ensures Inv(c, PublishStep(s, Prepare(u)).value)
  {
    hide Kept, Spared, ByIntent, ByOperation, BySession, IntentsOk, OperationsOk, Quorate, Within, Contiguous,
      PartCopies;
    var t := PublishStep(s, Prepare(u)).value;
    var v := s.uploads[u];
    assert SessionOk(v, s.versions, |s.nodes|);
    PartsBackManifest(v, s.versions, |s.nodes|);
    IntendedKeepsIntents(s, v.identity, v.frozen.value, PartCopies(v.parts));
    forall x | Protected(t, x) ensures Protected(s, x) {
      if ByIntent(t.publications, t.versions, x) {
        IntendedProtects(s, v.identity, v.frozen.value, PartCopies(v.parts), x);
        if x in PartCopies(v.parts) { SessionCopies(s.uploads, u, x); }
      }
    }
    ShrinkingKeeps(s, t);
  }

  lemma SendKeepsInv(c: Layout, s: Store, id: Identity)
    requires Inv(c, s) && PublishStep(s, Send(id)).Some?
    ensures Inv(c, PublishStep(s, Send(id)).value)
  {
    hide Kept, Spared, Protected, OperationsOk, SessionsOk, IntentOk;
    ProtectedSame(s, PublishStep(s, Send(id)).value);
  }

  lemma ProtectedSame(s: Store, t: Store)
    requires Kept(s) && Spared(s) && t.nodes == s.nodes && t.collections == s.collections
    requires t.operations == s.operations && t.publications == s.publications && t.versions == s.versions
      && t.uploads == s.uploads
    ensures Kept(t) && Spared(t)
  {
    ShrinkingKeeps(s, t);
  }

  /** A publication that arrives late creates the version its intent describes, or changes nothing. */
  lemma PublishKeepsInv(c: Layout, s: Store, id: Identity, payload: Payload)
    requires Inv(c, s) && PublishStep(s, Publish(id, payload)).Some?
    ensures Inv(c, PublishStep(s, Publish(id, payload)).value)
  {
    hide Kept, Spared, ByOperation, BySession, OperationsOk, Quorate, Within, Contiguous, Assembled;
    var t := PublishStep(s, Publish(id, payload)).value;
    if id !in s.versions {
      assert IntentOk(s.publications[id], id, s.versions, |s.nodes|);
      forall i | i in t.publications ensures IntentOk(t.publications[i], i, t.versions, |t.nodes|) {
        assert IntentOk(s.publications[i], i, s.versions, |s.nodes|);
      }
      forall u | u in t.uploads ensures SessionOk(t.uploads[u], t.versions, |t.nodes|) {
        assert SessionOk(s.uploads[u], s.versions, |s.nodes|);
      }
      forall x | ByIntent(t.publications, t.versions, x) ensures ByIntent(s.publications, s.versions, x) {
        var i :| Live(t.publications, t.versions, i) && x in t.publications[i].copies;
        assert Live(s.publications, s.versions, i);
      }
      ShrinkingKeeps(s, t);
    }
  }

  lemma FinishKeepsInv(c: Layout, s: Store, id: Identity)
    requires Inv(c, s) && PublishStep(s, Finish(id)).Some?
    ensures Inv(c, PublishStep(s, Finish(id)).value)
  {
    hide Kept, Spared, ByOperation, BySession, OperationsOk, SessionsOk, Quorate, Within;
    var t := PublishStep(s, Finish(id)).value;
    forall i | i in t.publications ensures IntentOk(t.publications[i], i, t.versions, |t.nodes|) {
      assert IntentOk(s.publications[i], i, s.versions, |s.nodes|);
    }
    forall x | ByIntent(t.publications, t.versions, x) ensures ByIntent(s.publications, s.versions, x) {
      var i :| Live(t.publications, t.versions, i) && x in t.publications[i].copies;
      assert Live(s.publications, s.versions, i);
    }
    ShrinkingKeeps(s, t);
  }

  lemma RemoveKeepsInv(c: Layout, s: Store, id: Identity, now: int)
    requires Inv(c, s) && PublishStep(s, Remove(id, now)).Some?
    ensures Inv(c, PublishStep(s, Remove(id, now)).value)
  {
    hide Kept, Spared, ByOperation, BySession, OperationsOk, Quorate, Within, Contiguous, Assembled;
    var t := PublishStep(s, Remove(id, now)).value;
    forall i | i in t.publications ensures IntentOk(t.publications[i], i, t.versions, |t.nodes|) {
      assert IntentOk(s.publications[i], i, s.versions, |s.nodes|);
    }
    forall u | u in t.uploads ensures SessionOk(t.uploads[u], t.versions, |t.nodes|) {
      assert SessionOk(s.uploads[u], s.versions, |s.nodes|);
    }
    forall x | ByIntent(t.publications, t.versions, x) ensures ByIntent(s.publications, s.versions, x) {
      var i :| Live(t.publications, t.versions, i) && x in t.publications[i].copies;
      assert Live(s.publications, s.versions, i);
    }
    ShrinkingKeeps(s, t);
  }

  // ---------------------------------------------------------------- maintenance

  lemma GateKeepsInv(c: Layout, s: Store, e: Step)
    requires Inv(c, s) && (e.StartMaintenance? || e.StopMaintenance? || e.Capture? || e.ScanUploads?)
      && SweepStep(c, s, e).Some?
    ensures Inv(c, SweepStep(c, s, e).value)
  {
    hide Kept, Spared, Protected, IntentsOk, OperationsOk, SessionsOk, SessionChunks;
    ProtectedSame(s, SweepStep(c, s, e).value);
  }

  lemma ScanShardKeepsInv(c: Layout, s: Store, e: Step)
    requires Inv(c, s) && e.ScanShard? && SweepStep(c, s, e).Some?
    ensures Inv(c, SweepStep(c, s, e).value)
  {
    hide Kept, Spared, Protected, IntentsOk, OperationsOk, SessionsOk, SessionChunks;
    ProtectedSame(s, SweepStep(c, s, e).value);
  }

  /** Expiry only lets go of sessions that are still active. */
  lemma SweepKeepsInv(c: Layout, s: Store, now: int)
    requires Inv(c, s) && SweepStep(c, s, Sweep(now)).Some?
    ensures Inv(c, SweepStep(c, s, Sweep(now)).value)
  {
    hide Kept, Spared, ByIntent, ByOperation, IntentsOk, OperationsOk, Quorate, Within, Contiguous, Assembled;
    var t := SweepStep(c, s, Sweep(now)).value;
    forall u | u in t.uploads ensures SessionOk(t.uploads[u], t.versions, |t.nodes|) {
      assert SessionOk(s.uploads[u], s.versions, |s.nodes|);
    }
    forall x | BySession(t.uploads, x) ensures BySession(s.uploads, x) {
      var u, k :| u in t.uploads && SessionLives(t.uploads[u]) && k in t.uploads[u].parts
        && x in t.uploads[u].parts[k].copies;
      assert SessionLives(s.uploads[u]) && k in s.uploads[u].parts;
    }
    ShrinkingKeeps(s, t);
  }

  /** Once everything is scanned, the references cover every protected copy. */
  lemma ScannedCoversAll(c: Layout, s: Store, x: Copy)
    requires LayoutOk(c) && Inv(c, s) && s.maintenance.Sweeping? && s.maintenance.uploads && Protected(s, x)
    requires forall i :: 0 <= i < c.shards ==> i in s.maintenance.shards
    ensures x.hash in s.maintenance.live
  {
    hide Kept, Spared, Quorate, Contiguous, Assembled;
    if ByIntent(s.publications, s.versions, x) {
      var id :| Live(s.publications, s.versions, id) && x in s.publications[id].copies;
      assert IntentOk(s.publications[id], id, s.versions, |s.nodes|);
      assert c.shardOf(id) in s.maintenance.shards;
    } else {
      assert BySession(s.uploads, x);
      var u, k :| u in s.uploads && SessionLives(s.uploads[u]) && k in s.uploads[u].parts
        && x in s.uploads[u].parts[k].copies;
      assert SessionOk(s.uploads[u], s.versions, |s.nodes|);
      assert x.hash in s.uploads[u].parts[k].content;
      assert x.hash in SessionChunks(s.uploads);
    }
  }

  /** A collection is sent only when its references cover everything its node protects. */
  lemma OrderKeepsInv(c: Layout, s: Store, n: nat, grace: nat)
    requires LayoutOk(c) && Inv(c, s) && SweepStep(c, s, Order(n, grace)).Some?
    ensures Inv(c, SweepStep(c, s, Order(n, grace)).value)
    ensures Collection(n, s.maintenance.live, grace, s.maintenance.fences[n]) in SweepStep(c, s,
        Order(n, grace)).value.collections
    ensures forall h :: Protected(s, Copy(n, h)) ==> h in s.maintenance.live
  {
    hide Kept, Protected, IntentsOk, OperationsOk, SessionsOk, ShardsCovered, SessionChunks, Replayed;
    var t := SweepStep(c, s, Order(n, grace)).value;
    SameProtection(s, t);
    forall h | Protected(s, Copy(n, h)) ensures h in s.maintenance.live { ScannedCoversAll(c, s, Copy(n, h)); }
    forall m | m in t.collections ensures Spares(t, m) {
      if m in s.collections { assert Spares(s, m); }
    }
    KeptSame(s, t);
  }

  lemma SameProtection(s: Store, t: Store)
    requires t.operations == s.operations && t.publications == s.publications && t.versions == s.versions
      && t.uploads == s.uploads
    ensures forall x :: Protected(t, x) <==> Protected(s, x)
  {
  }

  lemma KeptSame(s: Store, t: Store)
    requires Kept(s) && t.nodes == s.nodes && forall x :: Protected(t, x) <==> Protected(s, x)
    ensures Kept(t)
  {
    hide Protected;
  }

  /** An accepted collection spares every protected copy, whatever its grace, and moves the fence. */
  lemma CollectKeepsInv(c: Layout, s: Store, e: Step)
    requires Inv(c, s) && e.Collect? && SweepStep(c, s, e).Some?
    ensures Inv(c, SweepStep(c, s, e).value)
  {
    hide Protected, IntentsOk, OperationsOk, SessionsOk, ShardsCovered, SessionChunks, Replayed;
    var t := SweepStep(c, s, e).value;
    SameProtection(s, t);
    assert Spares(s, e.m);
    forall m | m in t.collections ensures Spares(t, m) { assert Spares(s, m); }
    forall x | Protected(t, x) ensures x.node < |t.nodes| && x.hash in t.nodes[x.node].chunks {
      if x.node == e.m.node { assert x == Copy(e.m.node, x.hash) && x.hash in e.m.live; }
    }
  }

  lemma RenewKeepsInv(c: Layout, s: Store, n: nat)
    requires Inv(c, s) && SweepStep(c, s, Renew(n)).Some?
    ensures Inv(c, SweepStep(c, s, Renew(n)).value)
  {
    hide Protected, IntentsOk, OperationsOk, SessionsOk, ShardsCovered, SessionChunks, Replayed;
    var t := SweepStep(c, s, Renew(n)).value;
    SameProtection(s, t);
    forall m | m in t.collections ensures Spares(t, m) { assert Spares(s, m); }
  }

  // ---------------------------------------------------------------- every step, every run

  lemma NextKeepsInv(c: Layout, s: Store, e: Step)
    requires LayoutOk(c) && Inv(c, s) && Next(c, s, e).Some?
    ensures Inv(c, Next(c, s, e).value)
  {
    hide Inv, WriteStep, PublishStep, SweepStep, LayoutOk;
    match e {
      case Begin(op, wanted) => BeginKeepsInv(c, s, op, wanted);
      case Put(_, _, _, _) => PutKeepsInv(c, s, e);
      case Leave(op) => LeaveKeepsInv(c, s, op);
      case CommitObject(op, id, payload) => CommitObjectKeepsInv(c, s, op, id, payload);
      case Open(_, _, _, _, _) => OpenKeepsInv(c, s, e);
      case CommitPart(_, _, _, _) => CommitPartKeepsInv(c, s, e);
      case Freeze(u, now) => FreezeKeepsInv(c, s, u, now);
      case Prepare(u) => PrepareKeepsInv(c, s, u);
      case Abort(u) => AbortKeepsInv(c, s, u);
      case Send(id) => SendKeepsInv(c, s, id);
      case Publish(id, payload) => PublishKeepsInv(c, s, id, payload);
      case Finish(id) => FinishKeepsInv(c, s, id);
      case Conclude(u) => ConcludeKeepsInv(c, s, u);
      case Remove(id, now) => RemoveKeepsInv(c, s, id, now);
      case Sweep(now) => SweepKeepsInv(c, s, now);
      case ScanShard(_, _, _) => ScanShardKeepsInv(c, s, e);
      case Order(n, grace) => OrderKeepsInv(c, s, n, grace);
      case Collect(_, _, _) => CollectKeepsInv(c, s, e);
      case Renew(n) => RenewKeepsInv(c, s, n);
      case StartMaintenance => GateKeepsInv(c, s, e);
      case StopMaintenance => GateKeepsInv(c, s, e);
      case Capture(_) => GateKeepsInv(c, s, e);
      case ScanUploads => GateKeepsInv(c, s, e);
    }
  }

  lemma EmptyInv(c: Layout, nodes: nat)
    ensures Inv(c, Empty(nodes))
  {
  }

  lemma {:induction false} RunKeepsInv(c: Layout, s: Store, steps: seq<Step>)
    requires LayoutOk(c) && Inv(c, s) && Run(c, s, steps).Some?
    ensures Inv(c, Run(c, s, steps).value)
    decreases |steps|
  {
    hide Inv, Next, LayoutOk;
    if steps != [] {
      NextKeepsInv(c, s, steps[0]);
      RunKeepsInv(c, Next(c, s, steps[0]).value, steps[1..]);
    }
  }

  /** In every run of PUTs, publications, timeouts, late deliveries, maintenance and late collections, whatever the
      grace: a copy some node acknowledged for an operation in progress, a pending intent, a version not removed, or a
      session active or completing, is still stored on that node. */
  lemma AcknowledgedCopiesAreNeverDeleted(c: Layout, nodes: nat, steps: seq<Step>, x: Copy)
    requires LayoutOk(c) && Run(c, Empty(nodes), steps).Some? && Protected(Run(c, Empty(nodes), steps).value, x)
    ensures var s := Run(c, Empty(nodes), steps).value; x.node < |s.nodes| && x.hash in s.nodes[x.node].chunks
  {
    hide Protected, Run;
    EmptyInv(c, nodes);
    RunKeepsInv(c, Empty(nodes), steps);
  }

  /** Every chunk of every version not removed is stored on a write quorum of nodes, in every reachable state. */
  lemma VersionsStayReadable(c: Layout, nodes: nat, steps: seq<Step>, id: Identity, i: nat)
    requires LayoutOk(c) && Run(c, Empty(nodes), steps).Some?
    requires var s := Run(c, Empty(nodes), steps).value;
      id in s.versions && s.versions[id].removed.None? && i < |s.versions[id].payload.manifest|
    ensures var s := Run(c, Empty(nodes), steps).value; var h := s.versions[id].payload.manifest[i];
      exists holders: set<nat> :: |holders| >= QUORUM
        && forall n :: n in holders ==> n < |s.nodes| && h in s.nodes[n].chunks
  {
    hide Run, Spared, SweepOk, OperationsOk, SessionsOk;
    EmptyInv(c, nodes);
    RunKeepsInv(c, Empty(nodes), steps);
    var s := Run(c, Empty(nodes), steps).value;
    var h := s.versions[id].payload.manifest[i];
    assert IntentOk(s.publications[id], id, s.versions, |s.nodes|) && Live(s.publications, s.versions, id);
    var holders := Nodes(s.publications[id].copies, h);
    assert |holders| >= QUORUM;
    forall n | n in holders ensures n < |s.nodes| && h in s.nodes[n].chunks { assert Protected(s, Copy(n, h)); }
  }

  // ---------------------------------------------------------------- fences never come back

  lemma WritesMoveFencesOn(s: Store, e: Step, n: nat)
    requires Writes(e) && WriteStep(s, e).Some? && n < |s.nodes|
    ensures var t := WriteStep(s, e).value;
      && |t.nodes| == |s.nodes| && s.nodes[n].generation <= t.nodes[n].generation
      && (e.Put? && e.node == n ==> s.nodes[n].generation < t.nodes[n].generation)
  {
    hide Quorate, Conflicts, PartFits, WithPart;
  }

  lemma PublicationsKeepNodes(s: Store, e: Step)
    requires Publishes(e) && PublishStep(s, e).Some?
    ensures PublishStep(s, e).value.nodes == s.nodes
  {
    hide Contiguous, Assembled, PartCopies, Conflicts;
  }

  lemma SweepsMoveFencesOn(c: Layout, s: Store, e: Step, n: nat)
    requires !Writes(e) && !Publishes(e) && SweepStep(c, s, e).Some? && n < |s.nodes|
    ensures var t := SweepStep(c, s, e).value; |t.nodes| == |s.nodes| && s.nodes[n].generation <= t.nodes[n].generation
  {
    hide References, SessionChunks, Replayed, Expired;
  }

  lemma NextMovesFencesOn(c: Layout, s: Store, e: Step, n: nat)
    requires Next(c, s, e).Some? && n < |s.nodes|
    ensures var t := Next(c, s, e).value;
      && |t.nodes| == |s.nodes| && s.nodes[n].generation <= t.nodes[n].generation
      && (e.Put? && e.node == n ==> s.nodes[n].generation < t.nodes[n].generation)
  {
    hide WriteStep, PublishStep, SweepStep;
    if Writes(e) {
      WritesMoveFencesOn(s, e, n);
    } else if Publishes(e) {
      PublicationsKeepNodes(s, e);
    } else {
      SweepsMoveFencesOn(c, s, e, n);
    }
  }

  lemma {:induction false} RunMovesFencesOn(c: Layout, s: Store, steps: seq<Step>, n: nat)
    requires Run(c, s, steps).Some? && n < |s.nodes|
    ensures var t := Run(c, s, steps).value; |t.nodes| == |s.nodes| && s.nodes[n].generation <= t.nodes[n].generation
    decreases |steps|
  {
    hide Next;
    if steps != [] {
      NextMovesFencesOn(c, s, steps[0], n);
      RunMovesFencesOn(c, Next(c, s, steps[0]).value, steps[1..], n);
    }
  }

  lemma StaleIsRefused(c: Layout, s: Store, m: Collection, now: int, victims: set<Hash>)
    requires m.node < |s.nodes| && m.generation < s.nodes[m.node].generation
    ensures Next(c, s, Collect(m, now, victims)).None?
  {
  }

  /** A write that a node accepts, even of a chunk it already has, shuts out for ever every collection whose fence was
      captured before it, whether it was sent before the write or is sent after it. */
  lemma StaleCollectionIsRefusedForever(c: Layout, nodes: nat, past: seq<Step>, e: Step, future: seq<Step>,
      m: Collection, now: int, victims: set<Hash>)
    requires Run(c, Empty(nodes), past).Some? && e.Put? && e.node == m.node
    requires var s := Run(c, Empty(nodes), past).value;
      && m.node < |s.nodes| && m.generation <= s.nodes[m.node].generation
      && Next(c, s, e).Some? && Run(c, Next(c, s, e).value, future).Some?
    ensures var s := Run(c, Empty(nodes), past).value;
      Next(c, Run(c, Next(c, s, e).value, future).value, Collect(m, now, victims)).None?
  {
    hide Run, Next;
    var s := Run(c, Empty(nodes), past).value;
    var t := Next(c, s, e).value;
    NextMovesFencesOn(c, s, e, m.node);
    RunMovesFencesOn(c, t, future, m.node);
    StaleIsRefused(c, Run(c, t, future).value, m, now, victims);
  }

  /** What has been sent, and what a sweep has captured, is never ahead of its node's fence. */
  lemma FencesAreFromThePast(c: Layout, nodes: nat, past: seq<Step>)
    requires LayoutOk(c) && Run(c, Empty(nodes), past).Some?
    ensures var s := Run(c, Empty(nodes), past).value;
      && (forall m :: m in s.collections ==> m.node < |s.nodes| && m.generation <= s.nodes[m.node].generation)
      && (s.maintenance.Sweeping? ==> FencesOk(s.maintenance.fences, s.nodes))
  {
    hide Run, Kept, RecordsOk, Protected;
    EmptyInv(c, nodes);
    RunKeepsInv(c, Empty(nodes), past);
    var s := Run(c, Empty(nodes), past).value;
    forall m | m in s.collections ensures m.node < |s.nodes| && m.generation <= s.nodes[m.node].generation {
      assert Spares(s, m);
    }
  }
}
