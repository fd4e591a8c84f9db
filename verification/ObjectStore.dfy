/** Object publication and garbage collection: data nodes, the catalog's publication intents and upload sessions,
    the metadata versions, and maintenance, under any interleaving of late, repeated and lost requests. */
module ObjectStore {
  import opened Wrappers

  type Hash = string

  /** A stored copy: which node, which chunk. */
  datatype Copy = Copy(node: nat, hash: Hash)

  // ---------------------------------------------------------------- data nodes

  /** Chunks with their creation time, and the collection fence; a fence value is never used twice. */
  datatype Node = Node(chunks: map<Hash, int>, generation: nat)

  /** `put`: the fence moves even for a chunk already stored. */
  function Stored(n: Node, h: Hash, now: int): Node {
    Node(if h in n.chunks then n.chunks else n.chunks[h := now], n.generation + 1)
  }

  /** What a collection may delete. */
  predicate Collectable(n: Node, live: set<Hash>, limit: int, h: Hash) {
    h in n.chunks && n.chunks[h] <= limit && h !in live
  }

  /** A collection request: the references it was computed from and the fence captured before computing them. */
  datatype Collection = Collection(node: nat, live: set<Hash>, grace: nat, generation: nat)

  /** `collect`, possibly cut short after deleting some of its candidates; None is the 409 of a moved fence. */
  function Collected(n: Node, m: Collection, now: int, victims: set<Hash>): Option<Node> {
    if m.generation != n.generation || exists h :: h in victims && !Collectable(n, m.live, now - m.grace, h) then None
    else Some(Node(n.chunks - victims, n.generation + 1))
  }

  // ---------------------------------------------------------------- catalog and metadata

  /** An idempotency identity. */
  datatype Identity = Identity(bucket: string, key: string, request: string)

  /** What is published: the chunk list, the size, the whole checksum and whether it is a delete marker. */
  datatype Payload = Payload(manifest: seq<Hash>, size: int, sum: string, marker: bool)

  /** A durable publication intent; `copies` are the chunk writes acknowledged on its behalf. */
  datatype Publication = Publication(payload: Payload, done: bool, copies: set<Copy>)

  datatype Version = Version(payload: Payload, removed: Option<int>)

  datatype Stage = Active | Completing | Complete | Aborted

  datatype Part = Part(content: seq<Hash>, copies: set<Copy>)

  /** A multipart session; `frozen` is the manifest fixed when completion begins. */
  datatype Upload = Upload(identity: Identity, size: int, sum: string, expires: int, stage: Stage,
      parts: map<nat, Part>, frozen: Option<Payload>)

  /** An object write or part write holding the shared gate. */
  datatype Operation = Operation(wanted: seq<Hash>, acked: set<Copy>)

  datatype Maintenance =
    | Off
    | Replaying
    | Sweeping(fences: map<nat, nat>, live: set<Hash>, shards: set<nat>, uploads: bool)

  datatype Store = Store(nodes: seq<Node>, operations: map<string, Operation>, publications: map<Identity, Publication>,
                         versions: map<Identity, Version>, uploads: map<string, Upload>, maintenance: Maintenance,
                         publishing: set<(Identity, Payload)>, collections: set<Collection>)

  /** The number of metadata shards and where each object lives. */
  datatype Layout = Layout(shards: nat, shardOf: Identity -> nat)

  const QUORUM := 2

  /** The nodes holding a copy of one chunk. */
  function Nodes(copies: set<Copy>, h: Hash): set<nat> {
    set c | c in copies && c.hash == h :: c.node
  }

  predicate Quorate(manifest: seq<Hash>, copies: set<Copy>) {
    forall i :: 0 <= i < |manifest| ==> |Nodes(copies, manifest[i])| >= QUORUM
  }

  /** The chunks of parts 1 to `n`, in order. */
  function Concat(parts: map<nat, Part>, n: nat): seq<Hash> {
    if n == 0 then [] else Concat(parts, n - 1) + (if n in parts then parts[n].content else [])
  }

  predicate Contiguous(parts: map<nat, Part>) {
    (forall k :: k in parts ==> 1 <= k <= |parts|) && forall k: nat :: 1 <= k <= |parts| ==> k in parts
  }

  function PartCopies(parts: map<nat, Part>): set<Copy> {
    set k, c | k in parts && c in parts[k].copies :: c
  }

  datatype Step =
    | Begin(op: string, wanted: seq<Hash>)                          // a write enters the shared gate
    // a chunk write arrives: in time for its operation, late, repeated or as a repair
    | Put(node: nat, hash: Hash, now: int, ack: Option<string>)
    | Leave(op: string)                                             // an operation fails or times out
    | CommitObject(op: string, id: Identity, payload: Payload)      // the intent of a single upload
    | Open(upload: string, id: Identity, size: int, sum: string, expires: int)
    | CommitPart(op: string, upload: string, number: nat, now: int)
    | Freeze(upload: string, now: int)                              // completion becomes durable
    | Prepare(upload: string)                                       // and records its intent
    | Abort(upload: string)
    | Send(id: Identity)                                            // a metadata publication request
    | Publish(id: Identity, payload: Payload)                       // it arrives, perhaps much later, or again
    | Finish(id: Identity)                                          // a verified receipt closes the intent
    | Conclude(upload: string)
    | Remove(id: Identity, now: int)
    | StartMaintenance | StopMaintenance
    | Sweep(now: int)                                               // everything replayed: expire, then capture
    | Capture(node: nat)
    | ScanShard(shard: nat, now: int, grace: nat)
    | ScanUploads
    | Order(node: nat, grace: nat)                                  // send a collection
    | Collect(m: Collection, now: int, victims: set<Hash>)          // it arrives, perhaps much later, or again
    | Renew(node: nat)                                              // a restart, recovery or compaction moves the fence

  /** The catalog is closed to everyone else while maintenance sweeps. */
  predicate Unlocked(s: Store) { !s.maintenance.Sweeping? }

  predicate Conflicts(s: Store, id: Identity, payload: Payload) {
    id in s.publications && s.publications[id].payload != payload
  }

  /** `prepare_publication`: a new pending intent, or the same one again with more acknowledged copies. */
  function Intended(s: Store, id: Identity, payload: Payload, copies: set<Copy>): Store {
    if id in s.publications
      then s.(publications := s.publications[id := s.publications[id].(copies := s.publications[id].copies + copies)])
    else s.(publications := s.publications[id := Publication(payload, false, copies)])
  }

  /** A part number is written once; writing the same content again adds its copies. */
  function WithPart(parts: map<nat, Part>, number: nat, o: Operation): map<nat, Part> {
    parts[number := Part(o.wanted, o.acked + (if number in parts then parts[number].copies else {}))]
  }

  predicate PartFits(u: Upload, number: nat, content: seq<Hash>, now: int) {
    && u.stage.Active? && now < u.expires && 1 <= number <= 64
    && (number in u.parts ==> u.parts[number].content == content)
  }

  function Assembled(u: Upload): Payload { Payload(Concat(u.parts, |u.parts|), u.size, u.sum, false) }

  function Staged(s: Store, upload: string, stage: Stage): Store
    requires upload in s.uploads
  {
    s.(uploads := s.uploads[upload := s.uploads[upload].(stage := stage)])
  }

  function Expired(uploads: map<string, Upload>, now: int): map<string, Upload> {
    map u | u in uploads ::
      if uploads[u].stage.Active? && uploads[u].expires <= now then uploads[u].(stage := Aborted) else uploads[u]
  }

  /** `references` of one shard: chunks of versions not removed, or removed within grace. */
  function References(c: Layout, versions: map<Identity, Version>, shard: nat, limit: int): set<Hash> {
    set id, h | id in versions && c.shardOf(id) == shard
      && (versions[id].removed.None? || versions[id].removed.value > limit)
                && h in versions[id].payload.manifest :: h
  }

  predicate SessionLives(u: Upload) { u.stage.Active? || u.stage.Completing? }

  function SessionChunks(uploads: map<string, Upload>): set<Hash> {
    set u, k, h | u in uploads && SessionLives(uploads[u]) && k in uploads[u].parts
      && h in uploads[u].parts[k].content :: h
  }

  /** All intents are closed and no completion is half done. */
  ghost predicate Replayed(intents: map<Identity, Publication>, sessions: map<string, Upload>) {
    && (forall id :: id in intents ==> intents[id].done)
    && (forall u :: u in sessions ==> !sessions[u].stage.Completing?)
  }

  // ---------------------------------------------------------------- steps

  /** Steps that write chunks and record them. */
  predicate Writes(e: Step) {
    e.Begin? || e.Put? || e.Leave? || e.CommitObject? || e.Open? || e.CommitPart?
  }

  /** Steps between a recorded intent or session and its version. */
  predicate Publishes(e: Step) {
    e.Freeze? || e.Prepare? || e.Abort? || e.Send? || e.Publish? || e.Finish? || e.Conclude? || e.Remove?
  }

  function WriteStep(s: Store, e: Step): Option<Store>
    requires Writes(e)
  {
    match e
    case Begin(op, wanted) =>
      if s.maintenance.Off? && op !in s.operations
        then Some(s.(operations := s.operations[op := Operation(wanted, {})])) else None
    case Put(n, h, now, ack) =>
      if n >= |s.nodes| || (ack.Some? && (ack.value !in s.operations || h !in s.operations[ack.value].wanted)) then None
      else
        var nodes := s.nodes[n := Stored(s.nodes[n], h, now)];
        if ack.None? then Some(s.(nodes := nodes))
        else
          var o := s.operations[ack.value];
          Some(s.(nodes := nodes, operations := s.operations[ack.value := o.(acked := o.acked + {Copy(n, h)})]))
    case Leave(op) => Some(s.(operations := s.operations - {op}))
    case CommitObject(op, id, payload) =>
      if op !in s.operations then None
      else
        var o := s.operations[op];
        if payload.manifest != o.wanted || !Quorate(o.wanted, o.acked) || Conflicts(s, id, payload) then None
        else Some(Intended(s, id, payload, o.acked).(operations := s.operations - {op}))
    case Open(u, id, size, sum, expires) =>
      if !Unlocked(s) || u in s.uploads || exists v :: v in s.uploads && s.uploads[v].identity == id then None
      else Some(s.(uploads := s.uploads[u := Upload(id, size, sum, expires, Active, map[], None)]))
    case CommitPart(op, u, number, now) =>
      if op !in s.operations || u !in s.uploads then None
      else
        var o := s.operations[op];
        if !PartFits(s.uploads[u], number, o.wanted, now) || !Quorate(o.wanted, o.acked) then None
        else
          var v := s.uploads[u].(parts := WithPart(s.uploads[u].parts, number, o));
          Some(s.(uploads := s.uploads[u := v], operations := s.operations - {op}))
  }

  function PublishStep(s: Store, e: Step): Option<Store>
    requires Publishes(e)
  {
    match e
    case Freeze(u, now) =>
      if !Unlocked(s) || u !in s.uploads || !s.uploads[u].stage.Active? || s.uploads[u].expires <= now
        || !Contiguous(s.uploads[u].parts) then None
      else Some(s.(uploads :=
          s.uploads[u := s.uploads[u].(stage := Completing, frozen := Some(Assembled(s.uploads[u])))]))
    case Prepare(u) =>
      if !Unlocked(s) || u !in s.uploads || !s.uploads[u].stage.Completing? || s.uploads[u].frozen.None?
         || Conflicts(s, s.uploads[u].identity, s.uploads[u].frozen.value) then None
      else Some(Intended(s, s.uploads[u].identity, s.uploads[u].frozen.value, PartCopies(s.uploads[u].parts)))
    case Abort(u) =>
      if !Unlocked(s) || u !in s.uploads || s.uploads[u].stage.Complete? || s.uploads[u].stage.Completing? then None
      else Some(Staged(s, u, Aborted))
    case Send(id) =>
      if !Unlocked(s) || id !in s.publications then None
      else Some(s.(publishing := s.publishing + {(id, s.publications[id].payload)}))
    case Publish(id, payload) =>
      if (id, payload) !in s.publishing || (id in s.versions && s.versions[id].payload != payload) then None
      else Some(if id in s.versions then s else s.(versions := s.versions[id := Version(payload, None)]))
    case Finish(id) =>
      if !Unlocked(s) || id !in s.publications || id !in s.versions then None
      else Some(s.(publications := s.publications[id := s.publications[id].(done := true)]))
    case Conclude(u) =>
      if !Unlocked(s) || u !in s.uploads || !s.uploads[u].stage.Completing? || s.uploads[u].frozen.None? then None
      else
        var id := s.uploads[u].identity;
        if id !in s.publications || !s.publications[id].done || s.publications[id].payload != s.uploads[u].frozen.value
          then None
        else Some(Staged(s, u, Complete))
    case Remove(id, now) =>
      if id !in s.versions then None
      else Some(s.(versions :=
          s.versions[id :=
              s.versions[id].(removed :=
                  Some(if s.versions[id].removed.Some? then s.versions[id].removed.value else now))]))
  }

  ghost function SweepStep(c: Layout, s: Store, e: Step): Option<Store>
    requires !Writes(e) && !Publishes(e)
  {
    match e
    case StartMaintenance => if s.maintenance.Off? && s.operations == map[] then Some(s.(maintenance := Replaying))
      else None
    case StopMaintenance => Some(s.(maintenance := Off))
    case Sweep(now) =>
      if s.maintenance.Replaying? && Replayed(s.publications, s.uploads)
      then Some(s.(uploads := Expired(s.uploads, now), maintenance := Sweeping(map[], {}, {}, false))) else None
    case Capture(n) =>
      if s.maintenance.Sweeping? && s.maintenance.shards == {} && !s.maintenance.uploads && n < |s.nodes|
      then Some(s.(maintenance := s.maintenance.(fences := s.maintenance.fences[n := s.nodes[n].generation]))) else None
    case ScanShard(shard, now, grace) =>
      if s.maintenance.Sweeping? then
        var live := s.maintenance.live + References(c, s.versions, shard, now - grace);
        Some(s.(maintenance := s.maintenance.(live := live, shards := s.maintenance.shards + {shard})))
      else None
    case ScanUploads =>
      if s.maintenance.Sweeping?
        then Some(s.(maintenance :=
            s.maintenance.(live := s.maintenance.live + SessionChunks(s.uploads), uploads := true)))
      else None
    case Order(n, grace) =>
      if s.maintenance.Sweeping? && s.maintenance.uploads
        && (forall i :: 0 <= i < c.shards ==> i in s.maintenance.shards) && n in s.maintenance.fences
      then Some(s.(collections := s.collections + {Collection(n, s.maintenance.live, grace, s.maintenance.fences[n])}))
        else None
    case Collect(m, now, victims) =>
      if m !in s.collections || m.node >= |s.nodes| then None
      else
        var n := Collected(s.nodes[m.node], m, now, victims);
        if n.None? then None else Some(s.(nodes := s.nodes[m.node := n.value]))
    case Renew(n) =>
      if n >= |s.nodes| then None
        else Some(s.(nodes := s.nodes[n := s.nodes[n].(generation := s.nodes[n].generation + 1)]))
  }

  ghost function Next(c: Layout, s: Store, e: Step): Option<Store> {
    if Writes(e) then WriteStep(s, e)
    else if Publishes(e) then PublishStep(s, e)
    else SweepStep(c, s, e)
  }

  /** An empty store with some nodes. */
  function Empty(nodes: nat): Store {
    Store(seq(nodes, _ => Node(map[], 0)), map[], map[], map[], map[], Off, {}, {})
  }

  ghost function Run(c: Layout, s: Store, steps: seq<Step>): Option<Store>
    decreases |steps|
  {
    if steps == [] then Some(s)
    else
      var t := Next(c, s, steps[0]);
      if t.None? then None else Run(c, t.value, steps[1..])
  }

  lemma NoSteps(c: Layout, s: Store)
    ensures Run(c, s, []) == Some(s)
  {
  }

  lemma Two(c: Layout, s: Store, a: Step, rest: seq<Step>)
    requires Next(c, s, a).Some?
    ensures Run(c, s, [a] + rest) == Run(c, Next(c, s, a).value, rest)
  {
    hide Next;
    assert ([a] + rest)[1..] == rest;
  }

  lemma TwoSteps(c: Layout, s: Store, e1: Step, e2: Step, s1: Store, s2: Store)
    requires Next(c, s, e1) == Some(s1) && Next(c, s1, e2) == Some(s2)
    ensures Run(c, s, [e1, e2]) == Some(s2)
  {
    hide Next, Run;
    Two(c, s, e1, [e2]);
    Two(c, s1, e2, []);
    assert [e1] + [e2] == [e1, e2] && [e2] + [] == [e2];
    NoSteps(c, s2);
  }

  lemma {:induction false} RunTwice(c: Layout, s: Store, a: seq<Step>, b: seq<Step>)
    requires Run(c, s, a).Some?
    ensures Run(c, s, a + b) == Run(c, Run(c, s, a).value, b)
    decreases |a|
  {
    hide Next;
    if a == [] {
      assert a + b == b;
    } else {
      assert (a + b)[1..] == a[1..] + b;
      RunTwice(c, Next(c, s, a[0]).value, a[1..], b);
    }
  }

  // ---------------------------------------------------------------- what must be kept

  type Intents = map<Identity, Publication>

  type Versions = map<Identity, Version>

  type Sessions = map<string, Upload>

  /** The intent is pending, or its version has not been removed. */
  predicate Live(intents: Intents, versions: Versions, id: Identity) {
    id in intents && (!intents[id].done || (id in versions && versions[id].removed.None?))
  }

  ghost predicate ByOperation(operations: map<string, Operation>, x: Copy) {
    exists o :: o in operations && x in operations[o].acked
  }

  ghost predicate ByIntent(intents: Intents, versions: Versions, x: Copy) {
    exists id :: Live(intents, versions, id) && x in intents[id].copies
  }

  ghost predicate BySession(sessions: Sessions, x: Copy) {
    exists u, k :: u in sessions && SessionLives(sessions[u]) && k in sessions[u].parts
      && x in sessions[u].parts[k].copies
  }

  /** A node acknowledged this copy for something that still needs it: an operation in progress, a pending intent
      or a version, or a part of a session that is active or completing. */
  ghost predicate Protected(s: Store, x: Copy) {
    ByOperation(s.operations, x) || ByIntent(s.publications, s.versions, x) || BySession(s.uploads, x)
  }

  predicate Within(copies: set<Copy>, manifest: seq<Hash>, nodes: nat) {
    forall x :: x in copies ==> x.hash in manifest && x.node < nodes
  }

  ghost predicate IntentOk(p: Publication, id: Identity, versions: Versions, nodes: nat) {
    && (p.done ==> id in versions)
    && Within(p.copies, p.payload.manifest, nodes) && Quorate(p.payload.manifest, p.copies)
  }

  ghost predicate IntentsOk(intents: Intents, versions: Versions, publishing: set<(Identity, Payload)>, nodes: nat) {
    && (forall id :: id in versions ==> id in intents && versions[id].payload == intents[id].payload)
    && (forall id :: id in intents ==> IntentOk(intents[id], id, versions, nodes))
    && (forall m :: m in publishing ==> m.0 in intents && intents[m.0].payload == m.1)
  }

  ghost predicate OperationsOk(operations: map<string, Operation>, nodes: nat) {
    forall o :: o in operations ==> Within(operations[o].acked, operations[o].wanted, nodes)
  }

  ghost predicate SessionOk(u: Upload, versions: Versions, nodes: nat) {
    && (forall k :: k in u.parts ==>
         Within(u.parts[k].copies, u.parts[k].content, nodes) && Quorate(u.parts[k].content, u.parts[k].copies))
    && (u.frozen.Some? <==> u.stage.Completing? || u.stage.Complete?)
    && (u.frozen.Some? ==> Contiguous(u.parts) && u.frozen.value == Assembled(u))
    && (u.stage.Complete? ==> u.identity in versions && versions[u.identity].payload == u.frozen.value)
  }

  ghost predicate SessionsOk(sessions: Sessions, versions: Versions, nodes: nat) {
    forall u :: u in sessions ==> SessionOk(sessions[u], versions, nodes)
  }

  /** Every protected copy is stored. */
  ghost predicate Kept(s: Store) {
    forall x :: Protected(s, x) ==> x.node < |s.nodes| && x.hash in s.nodes[x.node].chunks
  }

  /** A collection the node would still accept spares everything the node protects. */
  ghost predicate Spares(s: Store, m: Collection) {
    && m.node < |s.nodes| && m.generation <= s.nodes[m.node].generation
    && (m.generation == s.nodes[m.node].generation ==> forall h :: Protected(s, Copy(m.node, h)) ==> h in m.live)
  }

  ghost predicate Spared(s: Store) {
    forall m :: m in s.collections ==> Spares(s, m)
  }

  ghost predicate FencesOk(fences: map<nat, nat>, nodes: seq<Node>) {
    forall n :: n in fences ==> n < |nodes| && fences[n] <= nodes[n].generation
  }

  ghost predicate ShardsCovered(c: Layout, versions: Versions, shards: set<nat>, live: set<Hash>) {
    forall id, h ::
      && id in versions && versions[id].removed.None? && c.shardOf(id) in shards
      && h in versions[id].payload.manifest
      ==> h in live
  }

  ghost predicate SweepOk(c: Layout, s: Store) {
    && (s.operations != map[] ==> s.maintenance.Off?)
    && (s.maintenance.Sweeping? ==>
          && Replayed(s.publications, s.uploads) && FencesOk(s.maintenance.fences, s.nodes)
          && ShardsCovered(c, s.versions, s.maintenance.shards, s.maintenance.live)
          && (s.maintenance.uploads ==> SessionChunks(s.uploads) <= s.maintenance.live))
  }

  ghost predicate LayoutOk(c: Layout) { forall id :: c.shardOf(id) < c.shards }

  ghost predicate RecordsOk(s: Store) {
    && IntentsOk(s.publications, s.versions, s.publishing, |s.nodes|) && OperationsOk(s.operations, |s.nodes|)
    && SessionsOk(s.uploads, s.versions, |s.nodes|)
  }

  ghost predicate Inv(c: Layout, s: Store) {
    RecordsOk(s) && Kept(s) && Spared(s) && SweepOk(c, s)
  }
}
