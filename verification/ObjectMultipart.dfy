/** Multipart sessions: what one session can publish, and exactly when a completing session can be finished. */
module ObjectMultipart {
  import opened Wrappers
  import opened ObjectStore
  import opened ObjectSafety

  // ---------------------------------------------------------------- histories only go forward

  /** A session keeps its identity; an aborted one stays aborted, a frozen one keeps its manifest and cannot be
      aborted. */
  predicate Forward(u: Upload, v: Upload) {
    && v.identity == u.identity && v.size == u.size && v.sum == u.sum && v.expires == u.expires
    && (!u.stage.Active? ==> v.parts == u.parts)
    && (u.stage.Aborted? ==> v.stage.Aborted? && v.frozen == u.frozen)
    && (u.stage.Completing? ==> (v.stage.Completing? || v.stage.Complete?) && v.frozen == u.frozen)
    && (u.stage.Complete? ==> v.stage.Complete? && v.frozen == u.frozen)
  }

  /** Sessions move forward, and neither an intent nor a version ever changes its content. */
  ghost predicate Continues(s: Store, t: Store) {
    && (forall u :: u in s.uploads ==> u in t.uploads && Forward(s.uploads[u], t.uploads[u]))
    && (forall id :: id in s.publications ==>
         id in t.publications && t.publications[id].payload == s.publications[id].payload)
    && (forall id :: id in s.versions ==> id in t.versions && t.versions[id].payload == s.versions[id].payload)
  }

  /** The identity already belongs to an intent of other content. */
  predicate Taken(s: Store, u: string)
    requires u in s.uploads
  {
    s.uploads[u].frozen.Some? && Conflicts(s, s.uploads[u].identity, s.uploads[u].frozen.value)
  }

  /** A completing session in that position does not move. */
  ghost predicate Stuck(s: Store, t: Store) {
    forall u :: u in s.uploads && s.uploads[u].stage.Completing? && Taken(s, u) ==>
      u in t.uploads && t.uploads[u].stage.Completing?
  }

  ghost predicate WriteGoesOn(s: Store, t: Store) {
    Continues(s, t) && t.maintenance == s.maintenance && t.collections == s.collections
  }

  lemma PartContinues(s: Store, e: Step)
    requires e.CommitPart? && WriteStep(s, e).Some?
    ensures WriteGoesOn(s, WriteStep(s, e).value)
  {
    hide Quorate;
  }

  lemma IntentContinues(s: Store, e: Step)
    requires e.CommitObject? && WriteStep(s, e).Some?
    ensures WriteGoesOn(s, WriteStep(s, e).value)
  {
    hide Quorate;
  }

  lemma OtherWriteContinues(s: Store, e: Step)
    requires Writes(e) && !e.CommitPart? && !e.CommitObject? && WriteStep(s, e).Some?
    ensures WriteGoesOn(s, WriteStep(s, e).value)
  {
    hide Stored;
  }

  lemma WriteContinues(s: Store, e: Step)
    requires Writes(e)
    requires WriteStep(s, e).Some?
    ensures WriteGoesOn(s, WriteStep(s, e).value)
  {
    hide WriteStep;
    if e.CommitPart? {
      PartContinues(s, e);
    } else if e.CommitObject? {
      IntentContinues(s, e);
    } else {
      OtherWriteContinues(s, e);
    }
  }

  lemma WriteStuck(s: Store, e: Step)
    requires Writes(e)
    requires WriteStep(s, e).Some?
    ensures Stuck(s, WriteStep(s, e).value)
  {
    hide Quorate, Stored;
  }

  lemma SameSessionsStuck(s: Store, t: Store)
    requires t.uploads == s.uploads
    ensures Stuck(s, t)
  {
  }

  predicate OnSessions(e: Step) { e.Freeze? || e.Abort? || e.Conclude? }

  predicate OnRecords(e: Step) { e.Prepare? || e.Send? || e.Publish? || e.Finish? || e.Remove? }

  lemma SessionStepContinues(s: Store, e: Step)
    requires OnSessions(e) && PublishStep(s, e).Some?
    ensures var t := PublishStep(s, e).value;
      Continues(s, t) && t.maintenance == s.maintenance && t.collections == s.collections && Stuck(s, t)
  {
    hide Contiguous, Assembled;
  }

  lemma RecordStepContinues(s: Store, e: Step)
    requires OnRecords(e) && PublishStep(s, e).Some?
    ensures var t := PublishStep(s, e).value;
      Continues(s, t) && t.maintenance == s.maintenance && t.collections == s.collections && t.uploads == s.uploads
  {
    hide PartCopies;
  }

  lemma SweepContinues(c: Layout, s: Store, e: Step)
    requires !Writes(e) && !Publishes(e)
    requires SweepStep(c, s, e).Some?
    ensures Continues(s, SweepStep(c, s, e).value) && Stuck(s, SweepStep(c, s, e).value)
    ensures !s.maintenance.Sweeping? ==>
      var t := SweepStep(c, s, e).value;
      t.collections == s.collections && (t.maintenance.Sweeping? ==> Replayed(s.publications, s.uploads))
  {
    hide Collected, References, SessionChunks;
  }

  lemma NextContinues(c: Layout, s: Store, e: Step)
    requires Next(c, s, e).Some?
    ensures Continues(s, Next(c, s, e).value) && Stuck(s, Next(c, s, e).value)
    ensures !s.maintenance.Sweeping? ==>
      var t := Next(c, s, e).value;
      t.collections == s.collections && (t.maintenance.Sweeping? ==> Replayed(s.publications, s.uploads))
  {
    hide WriteStep, PublishStep, SweepStep, Continues, Stuck;
    if Writes(e) {
      WriteContinues(s, e);
      WriteStuck(s, e);
    }
    else if Publishes(e) {
      if OnSessions(e) {
        SessionStepContinues(s, e);
      } else {
        RecordStepContinues(s, e);
        SameSessionsStuck(s, PublishStep(s, e).value);
      }
    }
    else { SweepContinues(c, s, e); }
  }

  lemma {:induction false} RunContinues(c: Layout, s: Store, steps: seq<Step>)
    requires Run(c, s, steps).Some?
    ensures Continues(s, Run(c, s, steps).value)
    decreases |steps|
  {
    hide Next;
    if steps != [] {
      NextContinues(c, s, steps[0]);
      var t := Next(c, s, steps[0]).value;
      RunContinues(c, t, steps[1..]);
      ContinuesTwice(s, t, Run(c, t, steps[1..]).value);
    }
  }

  lemma ContinuesTwice(s: Store, t: Store, v: Store)
    requires Continues(s, t) && Continues(t, v)
    ensures Continues(s, v)
  {
  }

  /** Cut at these points, the content is that of the parts 1, 2, ... in number order. */
  ghost predicate CutsInto(content: seq<Hash>, parts: map<nat, Part>, n: nat, cuts: seq<nat>) {
    && |cuts| == n + 1 && cuts[0] == 0 && cuts[n] == |content|
    && forall k :: 1 <= k <= n ==>
         k in parts && cuts[k - 1] <= cuts[k] <= |content| && content[cuts[k - 1]..cuts[k]] == parts[k].content
  }

  lemma {:induction false} PartsInOrder(parts: map<nat, Part>, n: nat) returns (cuts: seq<nat>)
    requires forall k: nat :: 1 <= k <= n ==> k in parts
    ensures CutsInto(Concat(parts, n), parts, n, cuts)
  {
    if n == 0 {
      cuts := [0];
    } else {
      var before := PartsInOrder(parts, n - 1);
      var front, all := Concat(parts, n - 1), Concat(parts, n);
      cuts := before + [|all|];
      assert all == front + parts[n].content;
      forall k | 1 <= k <= n
        ensures cuts[k - 1] <= cuts[k] <= |all| && all[cuts[k - 1]..cuts[k]] == parts[k].content
      {
        if k < n {
          assert all[cuts[k - 1]..cuts[k]] == front[before[k - 1]..before[k]];
        } else {
          assert all[|front|..|all|] == parts[n].content;
        }
      }
    }
  }

  lemma AssemblyIsInOrder(u: Upload) returns (cuts: seq<nat>)
    requires Contiguous(u.parts)
    ensures CutsInto(Assembled(u).manifest, u.parts, |u.parts|, cuts)
    ensures Assembled(u).size == u.size && Assembled(u).sum == u.sum && !Assembled(u).marker
  {
    cuts := PartsInOrder(u.parts, |u.parts|);
  }

  /** One session publishes at most one version: once complete its identity names an object of the promised size and
      checksum whose content is that of its parts one after another in number order, and no later step, retry,
      concurrent completion, crash or maintenance replay changes it. */
  lemma CompletedSessionIsItsParts(c: Layout, nodes: nat, past: seq<Step>, future: seq<Step>, u: string)
    returns (cuts: seq<nat>)
    requires LayoutOk(c) && Run(c, Empty(nodes), past).Some? && Run(c, Run(c, Empty(nodes), past).value, future).Some?
    requires var s := Run(c, Empty(nodes), past).value; u in s.uploads && s.uploads[u].stage.Complete?
    ensures var s := Run(c, Empty(nodes), past).value; var t := Run(c, s, future).value; var session := s.uploads[u];
      && u in t.uploads && t.uploads[u].stage.Complete? && t.uploads[u].parts == session.parts
      && session.identity in t.versions
      && var whole := t.versions[session.identity].payload;
      && (forall k: nat :: k in session.parts <==> 1 <= k <= |session.parts|)
      && CutsInto(whole.manifest, session.parts, |session.parts|, cuts)
      && whole.size == session.size && whole.sum == session.sum && !whole.marker
  {
    hide Run, Kept, Spared, SweepOk, IntentsOk, OperationsOk, Assembled, CutsInto;
    EmptyInv(c, nodes);
    RunKeepsInv(c, Empty(nodes), past);
    var s := Run(c, Empty(nodes), past).value;
    assert SessionOk(s.uploads[u], s.versions, |s.nodes|);
    RunContinues(c, s, future);
    cuts := AssemblyIsInOrder(s.uploads[u]);
  }

  /** A session is never both aborted and published: an aborted one never freezes a manifest afterwards, and one
      whose completion began can never be aborted, by its user or by expiry. */
  lemma AbortExcludesPublication(c: Layout, nodes: nat, past: seq<Step>, future: seq<Step>, u: string)
    requires LayoutOk(c) && Run(c, Empty(nodes), past).Some? && Run(c, Run(c, Empty(nodes), past).value, future).Some?
    requires u in Run(c, Empty(nodes), past).value.uploads
    ensures var s := Run(c, Empty(nodes), past).value; var t := Run(c, s, future).value;
      && u in t.uploads
      && (s.uploads[u].stage.Aborted? ==> t.uploads[u].stage.Aborted? && t.uploads[u].frozen.None?)
      && (s.uploads[u].frozen.Some? ==> !t.uploads[u].stage.Aborted? && t.uploads[u].frozen == s.uploads[u].frozen)
  {
    hide Run, Kept, Spared, SweepOk, IntentsOk, OperationsOk, Assembled;
    EmptyInv(c, nodes);
    RunKeepsInv(c, Empty(nodes), past);
    var s := Run(c, Empty(nodes), past).value;
    assert SessionOk(s.uploads[u], s.versions, |s.nodes|);
    RunContinues(c, s, future);
  }

  // ---------------------------------------------------------------- finishing a completion

  /** Once an intent is recorded its publication can arrive and be confirmed. */
  lemma IntentPublishes(c: Layout, s: Store, id: Identity, payload: Payload) returns (t: Store)
    requires IntentsOk(s.publications, s.versions, s.publishing, |s.nodes|) && Unlocked(s)
    requires id in s.publications && s.publications[id].payload == payload
    ensures Run(c, s, [Send(id), ObjectStore.Publish(id, payload), Finish(id)]) == Some(t)
    ensures t.uploads == s.uploads && Unlocked(t) && id in t.publications && t.publications[id].payload == payload
      && t.publications[id].done
  {
    hide IntentOk;
    var s1 := s.(publishing := s.publishing + {(id, payload)});
    var s2 := if id in s1.versions then s1 else s1.(versions := s1.versions[id := Version(payload, None)]);
    t := s2.(publications := s2.publications[id := s2.publications[id].(done := true)]);
    assert PublishStep(s, Send(id)) == Some(s1) && PublishStep(s1, ObjectStore.Publish(id, payload)) == Some(s2)
      && PublishStep(s2, Finish(id)) == Some(t);
    ThreeSteps(c, s, Send(id), ObjectStore.Publish(id, payload), Finish(id), s1, s2, t);
  }

  lemma ThreeSteps(c: Layout, s: Store, e1: Step, e2: Step, e3: Step, s1: Store, s2: Store, s3: Store)
    requires Next(c, s, e1) == Some(s1) && Next(c, s1, e2) == Some(s2) && Next(c, s2, e3) == Some(s3)
    ensures Run(c, s, [e1, e2, e3]) == Some(s3)
  {
    hide Next, Run;
    Two(c, s, e1, [e2, e3]);
    Two(c, s1, e2, [e3]);
    Two(c, s2, e3, []);
    assert [e1] + [e2, e3] == [e1, e2, e3] && [e2] + [e3] == [e2, e3] && [e3] + [] == [e3];
    NoSteps(c, s3);
  }

  /** A completing session whose identity is free, or already holds this very content, can be finished from any
      reachable state. */
  lemma FreeCompletionFinishes(c: Layout, s: Store, u: string) returns (steps: seq<Step>, t: Store)
    requires Inv(c, s) && u in s.uploads && s.uploads[u].stage.Completing? && s.uploads[u].frozen.Some? && !Taken(s, u)
    ensures Run(c, s, steps) == Some(t) && u in t.uploads && t.uploads[u].stage.Complete?
  {
    hide Kept, Spared, SweepOk, SessionsOk, OperationsOk, IntentsOk, PartCopies, Run;
    var id, payload := s.uploads[u].identity, s.uploads[u].frozen.value;
    var off := s.(maintenance := Off);
    assert SweepStep(c, s, StopMaintenance) == Some(off);
    GateKeepsInv(c, s, StopMaintenance);
    var prepared := Intended(off, id, payload, PartCopies(off.uploads[u].parts));
    assert PublishStep(off, Prepare(u)) == Some(prepared);
    PrepareKeepsInv(c, off, u);
    var confirmed := IntentPublishes(c, prepared, id, payload);
    t := Staged(confirmed, u, Complete);
    assert PublishStep(confirmed, Conclude(u)) == Some(t);
    var publish := [Send(id), ObjectStore.Publish(id, payload), Finish(id)];
    steps := [StopMaintenance] + ([Prepare(u)] + (publish + ([Conclude(u)] + [])));
    Two(c, s, StopMaintenance, [Prepare(u)] + (publish + ([Conclude(u)] + [])));
    Two(c, off, Prepare(u), publish + ([Conclude(u)] + []));
    RunTwice(c, prepared, publish, [Conclude(u)] + []);
    Two(c, confirmed, Conclude(u), []);
    NoSteps(c, t);
  }

  lemma NextStaysTaken(c: Layout, s: Store, e: Step, u: string)
    requires Next(c, s, e).Some? && u in s.uploads && s.uploads[u].stage.Completing? && Taken(s, u)
    ensures var t := Next(c, s, e).value;
      && u in t.uploads && t.uploads[u].stage.Completing? && Taken(t, u)
      && (!s.maintenance.Sweeping? ==> !t.maintenance.Sweeping? && t.collections == s.collections)
  {
    hide Next;
    NextContinues(c, s, e);
  }

  /** A completing session whose identity was taken by other content stays completing for ever, and maintenance never
      again gets as far as collecting: every attempt stops at this session. */
  lemma {:induction false} TakenCompletionNeverFinishes(c: Layout, s: Store, steps: seq<Step>, u: string)
    requires Run(c, s, steps).Some? && u in s.uploads && s.uploads[u].stage.Completing? && Taken(s, u)
    ensures var t := Run(c, s, steps).value;
      && u in t.uploads && t.uploads[u].stage.Completing?
      && (!s.maintenance.Sweeping? ==> !t.maintenance.Sweeping? && t.collections == s.collections)
    decreases |steps|
  {
    hide Next, Taken;
    if steps != [] {
      NextStaysTaken(c, s, steps[0], u);
      TakenCompletionNeverFinishes(c, Next(c, s, steps[0]).value, steps[1..], u);
    }
  }

  /** These steps bring the session to completion. */
  ghost predicate Completes(c: Layout, s: Store, steps: seq<Step>, u: string) {
    Run(c, s, steps).Some? && u in Run(c, s, steps).value.uploads && Run(c, s, steps).value.uploads[u].stage.Complete?
  }

  /** A completing session can be driven to its version exactly when its identity is not taken by other content. */
  lemma CompletionFinishesIff(c: Layout, nodes: nat, past: seq<Step>, u: string)
    requires LayoutOk(c) && Run(c, Empty(nodes), past).Some?
    requires var s := Run(c, Empty(nodes), past).value; u in s.uploads && s.uploads[u].stage.Completing?
    ensures var s := Run(c, Empty(nodes), past).value;
      !Taken(s, u) <==> exists steps :: Completes(c, s, steps, u)
  {
    hide Run, Kept, Spared, SweepOk, IntentsOk, OperationsOk, Assembled;
    EmptyInv(c, nodes);
    RunKeepsInv(c, Empty(nodes), past);
    var s := Run(c, Empty(nodes), past).value;
    assert SessionOk(s.uploads[u], s.versions, |s.nodes|);
    if !Taken(s, u) {
      var steps, t := FreeCompletionFinishes(c, s, u);
      assert Completes(c, s, steps, u);
    } else {
      forall steps | Run(c, s, steps).Some? ensures !Completes(c, s, steps, u) {
        TakenCompletionNeverFinishes(c, s, steps, u);
      }
    }
  }

  // ---------------------------------------------------------------- a session that cannot finish

  const ID := Identity("bucket", "key", "request-1")

  /** Checksum of no bytes, abbreviated. */
  const NOTHING := "e3b0c442"

  /** A delete marker, then an empty multipart object under the same key and idempotency key. */
  const COLLISION: seq<Step> := [
    Begin("delete", []), CommitObject("delete", ID, Payload([], 0, NOTHING, true)),
    Open("session", ID, 0, NOTHING, 3600), Freeze("session", 0)
  ]

  lemma MarkerRuns(c: Layout) returns (t: Store)
    ensures Run(c, Empty(3), COLLISION[..2]) == Some(t)
    ensures t.maintenance.Off? && t.uploads == map[] && ID in t.publications
      && t.publications[ID].payload == Payload([], 0, NOTHING, true)
  {
    hide Run, PublishStep, SweepStep;
    var s0 := Empty(3);
    var s1 := s0.(operations := s0.operations["delete" := Operation([], {})]);
    t := Intended(s1, ID, Payload([], 0, NOTHING, true), {}).(operations := s1.operations - {"delete"});
    assert WriteStep(s0, COLLISION[0]) == Some(s1) && WriteStep(s1, COLLISION[1]) == Some(t);
    TwoSteps(c, s0, COLLISION[0], COLLISION[1], s1, t);
    assert COLLISION[..2] == [COLLISION[0], COLLISION[1]];
  }

  lemma EmptySessionFreezes(c: Layout, s: Store) returns (t: Store)
    requires s.maintenance.Off? && s.uploads == map[]
    ensures Run(c, s, COLLISION[2..]) == Some(t) && t.maintenance.Off? && t.publications == s.publications
      && "session" in t.uploads
    ensures var u := t.uploads["session"];
      u.stage.Completing? && u.identity == ID && u.frozen == Some(Payload([], 0, NOTHING, false))
  {
    hide Run, SweepStep;
    var u := Upload(ID, 0, NOTHING, 3600, Active, map[], None);
    var s1 := s.(uploads := s.uploads["session" := u]);
    assert |u.parts| == 0 && Assembled(u) == Payload([], 0, NOTHING, false);
    t := s1.(uploads := s1.uploads["session" := u.(stage := Completing, frozen := Some(Assembled(u)))]);
    assert WriteStep(s, COLLISION[2]) == Some(s1) && PublishStep(s1, COLLISION[3]) == Some(t);
    TwoSteps(c, s, COLLISION[2], COLLISION[3], s1, t);
    assert COLLISION[2..] == [COLLISION[2], COLLISION[3]];
  }

  /** Delete markers, single uploads and sessions draw on the same idempotency identities, so a completing session can
      be left with nothing it may publish: a run that gets there and never gets away, nor collects again. */
  lemma CompletionCanBeStuck(c: Layout) returns (t: Store)
    ensures Run(c, Empty(3), COLLISION) == Some(t) && "session" in t.uploads && t.uploads["session"].stage.Completing?
    ensures forall steps :: Run(c, t, steps).Some? ==>
      var v := Run(c, t, steps).value;
      "session" in v.uploads && v.uploads["session"].stage.Completing? && v.collections == t.collections
  {
    hide Run, Next;
    var s := MarkerRuns(c);
    t := EmptySessionFreezes(c, s);
    RunTwice(c, Empty(3), COLLISION[..2], COLLISION[2..]);
    assert COLLISION[..2] + COLLISION[2..] == COLLISION;
    forall steps | Run(c, t, steps).Some?
      ensures var v := Run(c, t, steps).value;
        "session" in v.uploads && v.uploads["session"].stage.Completing? && v.collections == t.collections
    {
      TakenCompletionNeverFinishes(c, t, steps, "session");
    }
  }
}
