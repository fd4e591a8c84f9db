/** Transfers over the replicated journal: the rows the coordinator acts on are the ones two of three replicas hold. */
module ReplicatedTransfers {
  import opened Wrappers
  import opened Digests
  import opened WalletShard
  import opened Transfers
  import opened TransferSafety
  import J = WalletJournal

  /** The journal with its replicas, and the system that runs on it. */
  datatype Cluster = Cluster(world: J.World, system: System)

  datatype Move =
    | Wire(event: J.Event)   // replication requests and answers, fencing, interrupted syncs, other writers
    | Quorum                 // two answers: the journal is marked committed, and the coordinator goes on
    | Play(step: Step)       // any other step; a row it adds becomes durable in the authority first

  function NextMove(h: J.RowHash, c: Config, k: Cluster, m: Move): Option<Cluster> {
    match m
    case Wire(e) =>
      if e.Record? || e.Commit? then None
      else
        var w := J.Next(h, k.world, e);
        if w.None? then None else Some(k.(world := w.value))
    case Quorum =>
      var w, t := J.Next(h, k.world, J.Commit), Next(c, k.system, Sync);
      if w.None? || t.None? then None else Some(Cluster(w.value, t.value))
    case Play(e) =>
      var t := Next(c, k.system, e);
      if e.Sync? || t.None? then None
      else if |t.value.log| <= |k.system.log| then Some(k.(system := t.value))
      else
        var w := J.Next(h, k.world, J.Record(t.value.log[|t.value.log| - 1]));
        if w.None? then None else Some(Cluster(w.value, t.value))
  }

  function Moves(h: J.RowHash, c: Config, k: Cluster, moves: seq<Move>): Option<Cluster>
    decreases |moves|
  {
    if moves == [] then Some(k)
    else
      var l := NextMove(h, c, k, moves[0]);
      if l.None? then None else Moves(h, c, l.value, moves[1..])
  }

  function Setup(c: Config, epoch: int, leader: string): Cluster { Cluster(J.Start(epoch, leader), Init(c)) }

  // ---------------------------------------------------------------- the two keep step

  function Facts(rows: seq<J.Row>): (r: seq<Fact>)
    ensures |r| == |rows|
  {
    seq(|rows|, i requires 0 <= i < |rows| => rows[i].event)
  }

  ghost predicate InStep(h: J.RowHash, c: Config, k: Cluster) {
    && Facts(k.world.rows) == k.system.log && k.world.committed == k.system.committed
    && J.Safe(h, k.world) && Inv(c, k.system)
  }

  /** A step adds at most one row, and only to a journal that is committed to the end. */
  lemma RowsFollowCommitment(c: Config, s: System, e: Step)
    requires Inv(c, s) && Next(c, s, e).Some?
    ensures var t := Next(c, s, e).value;
      && (t.log == s.log || (s.committed == |s.log| && |t.log| == |s.log| + 1 && t.log[..|s.log|] == s.log))
      && (!e.Sync? ==> t.committed == s.committed)
  {
    hide Project, Act, Coherent, Warranted, ShardsOk;
  }

  /** The journal takes every row a step adds. */
  lemma NoRowIsRefused(h: J.RowHash, c: Config, k: Cluster, e: Step)
    requires InStep(h, c, k) && !e.Sync? && Next(c, k.system, e).Some?
    ensures NextMove(h, c, k, Play(e)).Some? && NextMove(h, c, k, Play(e)).value.system == Next(c, k.system, e).value
  {
    hide Next, Inv, J.Safe;
    RowsFollowCommitment(c, k.system, e);
  }

  lemma FactsOfRecord(h: J.RowHash, w: J.World, f: Fact)
    requires J.Next(h, w, J.Record(f)).Some?
    ensures var v := J.Next(h, w, J.Record(f)).value; Facts(v.rows) == Facts(w.rows) + [f] && v.committed == w.committed
  {
  }

  lemma WireKeepsRows(h: J.RowHash, w: J.World, e: J.Event)
    requires !e.Record? && !e.Commit? && J.Next(h, w, e).Some?
    ensures var v := J.Next(h, w, e).value; v.rows == w.rows && v.committed == w.committed
  {
    hide J.AppendTo, J.Fenced;
  }

  lemma MoveKeepsInStep(h: J.RowHash, c: Config, k: Cluster, m: Move)
    requires CollisionFree(h) && ConfigOk(c) && InStep(h, c, k) && NextMove(h, c, k, m).Some?
    ensures var l := NextMove(h, c, k, m).value;
      InStep(h, c, l) && k.world.rows <= l.world.rows && k.world.committed <= l.world.committed
  {
    hide Next, J.Next, Inv, J.Safe, CollisionFree, ConfigOk;
    var l := NextMove(h, c, k, m).value;
    match m {
      case Wire(e) =>
        J.NextKeepsSafe(h, k.world, e);
        WireKeepsRows(h, k.world, e);
      case Quorum =>
        J.NextKeepsSafe(h, k.world, J.Commit);
        NextKeepsInv(c, k.system, Sync);
        CommitIsSync(h, c, k);
      case Play(e) =>
        RowsFollowCommitment(c, k.system, e);
        NextKeepsInv(c, k.system, e);
        if |l.system.log| > |k.system.log| {
          var f := l.system.log[|l.system.log| - 1];
          J.NextKeepsSafe(h, k.world, J.Record(f));
          FactsOfRecord(h, k.world, f);
          assert l.system.log == k.system.log + [f];
        }
    }
  }

  lemma CommitIsSync(h: J.RowHash, c: Config, k: Cluster)
    requires J.Next(h, k.world, J.Commit).Some? && Next(c, k.system, Sync).Some?
    ensures var w, t := J.Next(h, k.world, J.Commit).value, Next(c, k.system, Sync).value;
      && w.rows == k.world.rows && w.committed == |w.rows|
      && t.log == k.system.log && t.committed == |t.log|
  {
    hide Project;
  }

  lemma {:induction false} MovesKeepInStep(h: J.RowHash, c: Config, k: Cluster, moves: seq<Move>)
    requires CollisionFree(h) && ConfigOk(c) && InStep(h, c, k) && Moves(h, c, k, moves).Some?
    ensures var l := Moves(h, c, k, moves).value;
      InStep(h, c, l) && k.world.rows <= l.world.rows && k.world.committed <= l.world.committed
    decreases |moves|
  {
    hide NextMove, InStep, CollisionFree, ConfigOk;
    if moves != [] {
      MoveKeepsInStep(h, c, k, moves[0]);
      MovesKeepInStep(h, c, NextMove(h, c, k, moves[0]).value, moves[1..]);
    }
  }

  lemma SetupIsInStep(h: J.RowHash, c: Config, epoch: int, leader: string)
    requires ConfigOk(c)
    ensures InStep(h, c, Setup(c, epoch, leader))
  {
    hide Inv, J.Safe, ConfigOk;
    J.StartIsSafe(h, epoch, leader);
    InitInv(c);
  }

  // ---------------------------------------------------------------- replicated before it takes effect

  /** The commands as the committed rows tell them. */
  function Replicated(w: J.World): Option<Book>
    requires w.committed <= |w.rows|
  {
    Project(Facts(w.rows[..w.committed]))
  }

  lemma ReplicatedIsKnown(h: J.RowHash, c: Config, k: Cluster)
    requires InStep(h, c, k)
    ensures k.world.committed <= |k.world.rows| && Replicated(k.world) == Some(Known(k.system))
  {
    hide Project, Coherent, Warranted, ShardsOk, WorkerOk;
    assert Facts(k.world.rows[..k.world.committed]) == k.system.log[..k.system.committed];
  }

  lemma NothingKnown(w: J.World)
    requires w.committed <= |w.rows| && Replicated(w).Some? && Replicated(w).value != map[]
    ensures w.committed > 0
  {
  }

  /** A record, and what it did, as the book calls for. */
  predicate RecordIsBacked(p: Part, book: Book, id: string) {
    && id in book && book[id].body == p.intent
    && (p.status.Confirmed? && !p.role.Local? ==> book[id].decision == Some(true))
    && (p.status.Canceled? ==> book[id].decision == Some(false))
  }

  lemma RecordsAreBacked(c: Config, s: System, i: nat, id: string)
    requires Inv(c, s) && i < |s.shards| && id in s.shards[i].parts
    ensures RecordIsBacked(s.shards[i].parts[id], Known(s), id)
  {
    hide Project, Warranted, ShardsOk, WorkerOk;
    assert Coherent(c, s.shards, Known(s), Project(s.log).value, id) && Owned(c, s.shards, Known(s), id);
  }

  /** Nothing happens at a participant, and no command is even on its way, before the row that calls for it is on two of
      three replicas: a command in flight was accepted, and a confirmation or cancellation decided, by replicated rows;
      a record belongs to a replicated command, a confirmed one to a replicated COMMIT and a cancelled one to a
      replicated CANCEL. And whatever happens next, those rows stay where they are. */
  lemma EffectsAreReplicatedFirst(h: J.RowHash, c: Config, epoch: int, leader: string, past: seq<Move>,
      future: seq<Move>)
    requires CollisionFree(h) && ConfigOk(c) && Moves(h, c, Setup(c, epoch, leader), past).Some?
    requires Moves(h, c, Moves(h, c, Setup(c, epoch, leader), past).value, future).Some?
    ensures var k := Moves(h, c, Setup(c, epoch, leader), past).value; var w := k.world;
      && w.committed <= |w.rows| && Replicated(w).Some? && var book := Replicated(w).value;
      && (forall m :: m in k.system.sent ==> Warranted(c, k.system.shards, book, m))
      && (forall i, id :: 0 <= i < |k.system.shards| && id in k.system.shards[i].parts ==>
            RecordIsBacked(k.system.shards[i].parts[id], book, id))
      && (book != map[] ==> |J.Holders(w, w.committed)| >= 2)
    ensures var k := Moves(h, c, Setup(c, epoch, leader), past).value; var l := Moves(h, c, k, future).value;
      && k.world.committed <= |k.world.rows| && k.world.committed <= |l.world.rows|
      && l.world.rows[..k.world.committed] == k.world.rows[..k.world.committed]
      && (k.world.committed > 0 ==> |J.Holders(l.world, k.world.committed)| >= 2)
  {
    hide Moves, Project, Coherent, Warranted, ShardsOk, WorkerOk, CollisionFree, ConfigOk, J.Chained, J.Holders,
      Replicated, Facts;
    SetupIsInStep(h, c, epoch, leader);
    MovesKeepInStep(h, c, Setup(c, epoch, leader), past);
    var k := Moves(h, c, Setup(c, epoch, leader), past).value;
    MovesKeepInStep(h, c, k, future);
    var l := Moves(h, c, k, future).value;
    ReplicatedIsKnown(h, c, k);
    if Replicated(k.world).value != map[] { NothingKnown(k.world); }
    forall i, id | 0 <= i < |k.system.shards| && id in k.system.shards[i].parts
      ensures RecordIsBacked(k.system.shards[i].parts[id], Known(k.system), id)
    {
      RecordsAreBacked(c, k.system, i, id);
    }
    J.FewerRowsMoreHolders(l.world, k.world.committed, l.world.committed);
  }
}
