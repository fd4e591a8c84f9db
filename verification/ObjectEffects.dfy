/** What the steps of the object store do, told from the store before them, and that an acknowledged write can always be
    published. */
module ObjectEffects {
  import opened Wrappers
  import opened ObjectStore
  import opened ObjectSafety
  import opened ObjectMultipart

  // ---------------------------------------------------------------- data nodes

  /** An accepted write stores its chunk under the time of its first arrival, keeps every other chunk as it is, and
      acknowledges the copy to the operation it is for. */
  lemma PutIsExact(c: Layout, s: Store, e: Step)
    requires e.Put? && Next(c, s, e).Some?
    ensures var t := Next(c, s, e).value; var before, after := s.nodes[e.node], t.nodes[e.node];
      && |t.nodes| == |s.nodes| && after.generation > before.generation
      && after.chunks.Keys == before.chunks.Keys + {e.hash}
      && (forall h :: h in before.chunks ==> after.chunks[h] == before.chunks[h])
      && (e.hash !in before.chunks ==> after.chunks[e.hash] == e.now)
      && (forall n :: 0 <= n < |s.nodes| && n != e.node ==> t.nodes[n] == s.nodes[n])
      && t == s.(nodes := t.nodes, operations := t.operations) && t.operations.Keys == s.operations.Keys
      && forall o :: o in s.operations ==>
           t.operations[o] == if e.ack == Some(o)
             then Operation(s.operations[o].wanted, s.operations[o].acked + {Copy(e.node, e.hash)}) else s.operations[o]
  {
  }

  /** A collection deletes only chunks at least the grace old, by the node's clock, that are not among its references;
      it leaves the creation times of the rest and every other node alone. */
  lemma CollectSparesTheFresh(c: Layout, s: Store, e: Step)
    requires e.Collect? && Next(c, s, e).Some?
    ensures var t := Next(c, s, e).value; var n := e.m.node;
      && n < |s.nodes| == |t.nodes| && t == s.(nodes := t.nodes)
      && s.nodes[n].generation == e.m.generation && t.nodes[n].generation > s.nodes[n].generation
      && (forall k :: 0 <= k < |s.nodes| && k != n ==> t.nodes[k] == s.nodes[k])
      && (forall h :: h in t.nodes[n].chunks ==> h in s.nodes[n].chunks && t.nodes[n].chunks[h] == s.nodes[n].chunks[h])
      && (forall h :: h in s.nodes[n].chunks && (h in e.m.live || s.nodes[n].chunks[h] > e.now - e.m.grace) ==>
            h in t.nodes[n].chunks)
  {
  }

  // ---------------------------------------------------------------- sessions

  /** A sweep begins only when everything is replayed; then it aborts exactly the active sessions whose deadline has
      passed and changes nothing else. */
  lemma SweepExpiresExactly(c: Layout, s: Store, now: int)
    requires Next(c, s, Sweep(now)).Some?
    ensures var t := Next(c, s, Sweep(now)).value;
      && t == s.(uploads := t.uploads, maintenance := t.maintenance) && t.uploads.Keys == s.uploads.Keys
      && (forall id :: id in s.publications ==> s.publications[id].done)
      && forall u :: u in s.uploads ==>
           t.uploads[u] == if s.uploads[u].stage == Active && s.uploads[u].expires <= now
             then s.uploads[u].(stage := Aborted) else s.uploads[u]
  {
  }

  /** A user can abort a session that is active, or has been aborted, while no sweep holds the catalog. */
  lemma AbortIsExact(c: Layout, s: Store, u: string)
    ensures Next(c, s, Abort(u)).Some? <==>
      !s.maintenance.Sweeping? && u in s.uploads && s.uploads[u].stage in {Active, Aborted}
    ensures Next(c, s, Abort(u)).Some? ==>
      Next(c, s, Abort(u)).value == s.(uploads := s.uploads[u := s.uploads[u].(stage := Aborted)])
  {
  }

  /** A session opens under a new name and an identity no session has, empty and active. */
  lemma OpenIsExact(c: Layout, s: Store, e: Step)
    requires e.Open?
    ensures Next(c, s, e).Some? <==>
      !s.maintenance.Sweeping? && e.upload !in s.uploads
        && forall v :: v in s.uploads ==> s.uploads[v].identity != e.id
    ensures Next(c, s, e).Some? ==> var t := Next(c, s, e).value;
      && t == s.(uploads := t.uploads) && t.uploads.Keys == s.uploads.Keys + {e.upload}
      && (forall v :: v in s.uploads ==> t.uploads[v] == s.uploads[v])
      && t.uploads[e.upload] == Upload(e.id, e.size, e.sum, e.expires, Active, map[], None)
  {
  }

  /** Completion begins exactly when the session is active and in time and its part numbers run from one without a gap;
      from then on it is completing, and nothing else changes. */
  lemma FreezeIsExact(c: Layout, s: Store, u: string, now: int)
    ensures Next(c, s, Freeze(u, now)).Some? <==>
      && !s.maintenance.Sweeping? && u in s.uploads && s.uploads[u].stage == Active && now < s.uploads[u].expires
      && forall k: nat :: k in s.uploads[u].parts <==> 1 <= k <= |s.uploads[u].parts|
    ensures Next(c, s, Freeze(u, now)).Some? ==> var t := Next(c, s, Freeze(u, now)).value;
      && t == s.(uploads := t.uploads) && t.uploads.Keys == s.uploads.Keys
      && (forall v :: v in s.uploads && v != u ==> t.uploads[v] == s.uploads[v])
      && t.uploads[u] == s.uploads[u].(stage := Completing, frozen := t.uploads[u].frozen) && t.uploads[u].frozen.Some?
  {
  }

  /** A part is taken, as its operation wrote it, when the session is active and in time, the number legal and every
      chunk acknowledged by two nodes; a number once written takes only the same content again. */
  lemma PartIsExact(c: Layout, s: Store, e: Step)
    requires e.CommitPart?
    ensures Next(c, s, e).Some? <==>
      && e.op in s.operations && e.upload in s.uploads
      && var o, u := s.operations[e.op], s.uploads[e.upload];
      && u.stage == Active && e.now < u.expires && 1 <= e.number <= 64
      && (e.number in u.parts ==> u.parts[e.number].content == o.wanted)
      && forall h :: h in o.wanted ==> |Nodes(o.acked, h)| >= 2
    ensures Next(c, s, e).Some? ==>
      var o, u := s.operations[e.op], s.uploads[e.upload]; var t := Next(c, s, e).value;
      && t == s.(uploads := t.uploads, operations := s.operations - {e.op}) && t.uploads.Keys == s.uploads.Keys
      && (forall v :: v in s.uploads && v != e.upload ==> t.uploads[v] == s.uploads[v])
      && t.uploads[e.upload] == u.(parts := t.uploads[e.upload].parts)
      && (e.number in u.parts ==> u.parts[e.number].copies <= t.uploads[e.upload].parts[e.number].copies)
      && t.uploads[e.upload].parts.Keys == u.parts.Keys + {e.number}
      && t.uploads[e.upload].parts[e.number].content == o.wanted
         && o.acked <= t.uploads[e.upload].parts[e.number].copies
      && forall k :: k in u.parts && k != e.number ==> t.uploads[e.upload].parts[k] == u.parts[k]
  {
    if e.op in s.operations { QuorateMeansTwo(s.operations[e.op].wanted, s.operations[e.op].acked); }
  }

  lemma QuorateMeansTwo(manifest: seq<Hash>, copies: set<Copy>)
    ensures Quorate(manifest, copies) <==> forall h :: h in manifest ==> |Nodes(copies, h)| >= 2
  {
    if forall h :: h in manifest ==> |Nodes(copies, h)| >= 2 {
      forall i | 0 <= i < |manifest| ensures |Nodes(copies, manifest[i])| >= QUORUM { assert manifest[i] in manifest; }
    }
  }

  // ---------------------------------------------------------------- objects

  /** The intent of a single upload is recorded when every chunk it wrote is acknowledged by two nodes and the identity
      holds no other content; it carries exactly what was written. */
  lemma IntentIsExact(c: Layout, s: Store, e: Step)
    requires e.CommitObject?
    ensures Next(c, s, e).Some? <==>
      && e.op in s.operations && e.payload.manifest == s.operations[e.op].wanted
      && (forall h :: h in e.payload.manifest ==> |Nodes(s.operations[e.op].acked, h)| >= 2)
      && (e.id in s.publications ==> s.publications[e.id].payload == e.payload)
    ensures Next(c, s, e).Some? ==> var t := Next(c, s, e).value;
      && t == s.(publications := t.publications, operations := s.operations - {e.op})
      && t.publications.Keys == s.publications.Keys + {e.id}
      && (forall id :: id in s.publications && id != e.id ==> t.publications[id] == s.publications[id])
      && (e.id in s.publications ==> s.publications[e.id].copies <= t.publications[e.id].copies)
      && t.publications[e.id].payload == e.payload && s.operations[e.op].acked <= t.publications[e.id].copies
      && t.publications[e.id].done == (e.id in s.publications && s.publications[e.id].done)
  {
    if e.op in s.operations { QuorateMeansTwo(s.operations[e.op].wanted, s.operations[e.op].acked); }
  }

  /** Removal marks the version with its time, once, and keeps its content. */
  lemma RemovalIsExact(c: Layout, s: Store, id: Identity, now: int)
    ensures Next(c, s, Remove(id, now)).Some? <==> id in s.versions
    ensures id in s.versions ==> var t := Next(c, s, Remove(id, now)).value;
      && t == s.(versions := t.versions) && t.versions.Keys == s.versions.Keys
      && (forall x :: x in s.versions && x != id ==> t.versions[x] == s.versions[x])
      && t.versions[id].payload == s.versions[id].payload
      && t.versions[id].removed == if s.versions[id].removed.Some? then s.versions[id].removed else Some(now)
  {
  }

  /** From any reachable state outside a sweep, a write whose every chunk two nodes have acknowledged can be published
      under any identity that holds no other content: its version then exists with exactly what was written. */
  lemma AcknowledgedWritesPublish(c: Layout, nodes: nat, past: seq<Step>, op: string, id: Identity, payload: Payload)
    returns (steps: seq<Step>, t: Store)
    requires LayoutOk(c) && Run(c, Empty(nodes), past).Some?
    requires var s := Run(c, Empty(nodes), past).value;
      && !s.maintenance.Sweeping? && op in s.operations && payload.manifest == s.operations[op].wanted
      && (forall h :: h in payload.manifest ==> |Nodes(s.operations[op].acked, h)| >= 2)
      && (id in s.publications ==> s.publications[id].payload == payload)
    ensures Run(c, Run(c, Empty(nodes), past).value, steps) == Some(t)
    ensures id in t.publications && t.publications[id].done && id in t.versions && t.versions[id].payload == payload
  {
    hide Run, Next, Kept, Spared, SweepOk, OperationsOk, SessionsOk;
    EmptyInv(c, nodes);
    RunKeepsInv(c, Empty(nodes), past);
    var s := Run(c, Empty(nodes), past).value;
    var e := CommitObject(op, id, payload);
    IntentIsExact(c, s, e);
    NextKeepsInv(c, s, e);
    var u := Next(c, s, e).value;
    t := IntentPublishes(c, u, id, payload);
    var rest := [Send(id), ObjectStore.Publish(id, payload), Finish(id)];
    Two(c, s, e, rest);
    steps := [e] + rest;
    RunKeepsInv(c, u, rest);
    assert IntentOk(t.publications[id], id, t.versions, |t.nodes|);
  }
}
