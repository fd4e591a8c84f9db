/** The coordinator's journal: one retained authority log copied to three fenced replicas.
    Packets may be lost, delayed, repeated or forged; the authority may stop at any point. */
module WalletJournal {
  import opened Wrappers
  import opened Digests
  import opened Transfers

  datatype Row = Row(seqno: int, previous: string, event: Fact, hash: string)

  type RowHash = Digest<Fact>

  function Entry(h: RowHash, seqno: int, previous: string, event: Fact): Row {
    Row(seqno, previous, event, h(seqno, previous, event))
  }

  /** The hash after the first `n` rows. */
  function HashAt(rows: seq<Row>, n: nat): string
    requires n <= |rows|
  {
    if n == 0 then ZERO else rows[n - 1].hash
  }

  predicate Linked(h: RowHash, rows: seq<Row>, i: nat)
    requires i < |rows|
  {
    rows[i] == Entry(h, i + 1, HashAt(rows, i), rows[i].event)
  }

  /** `verify`. */
  predicate Chained(h: RowHash, rows: seq<Row>) {
    forall i :: 0 <= i < |rows| ==> Linked(h, rows, i)
  }

  lemma ChainExtends(h: RowHash, rows: seq<Row>, f: Fact)
    requires Chained(h, rows)
    ensures Chained(h, rows + [Entry(h, |rows| + 1, HashAt(rows, |rows|), f)])
  {
    var r := rows + [Entry(h, |rows| + 1, HashAt(rows, |rows|), f)];
    forall i | 0 <= i < |r| ensures Linked(h, r, i) {
      assert HashAt(r, i) == HashAt(rows, i);
      if i < |rows| { assert Linked(h, rows, i); }
    }
  }

  /** Equal hashes at a position mean equal rows up to it. */
  lemma {:induction false} HashNamesPrefix(h: RowHash, a: seq<Row>, b: seq<Row>, n: nat)
    requires CollisionFree(h) && Chained(h, a) && Chained(h, b) && n <= |a| && n <= |b|
    requires n > 0 ==> HashAt(a, n) == HashAt(b, n)
    ensures a[..n] == b[..n]
  {
    if n > 0 {
      assert Linked(h, a, n - 1) && Linked(h, b, n - 1);
      assert a[n - 1] == b[n - 1];
      HashNamesPrefix(h, a, b, n - 1);
      assert a[..n] == a[..n - 1] + [a[n - 1]] && b[..n] == b[..n - 1] + [b[n - 1]];
    }
  }

  // ---------------------------------------------------------------- one replica

  datatype Replica = Replica(rows: seq<Row>, epoch: int, leader: string)

  datatype Denial = StaleLeader | BadSequence | PrefixConflict | GapOrChecksum

  /** `Replica.append`: the fence first, then a repeat of a stored row or exactly the next chained row. */
  function AppendTo(h: RowHash, r: Replica, row: Row, epoch: int, leader: string): Result<Replica, Denial> {
    if epoch != r.epoch || leader != r.leader then Err(StaleLeader)
    else if row.seqno < 1 then Err(BadSequence)
    else if row.seqno <= |r.rows| then
      if r.rows[row.seqno - 1] != row then Err(PrefixConflict) else Ok(r)
    else if row.seqno != |r.rows| + 1
      || row != Entry(h, row.seqno, HashAt(r.rows, |r.rows|), row.event) then Err(GapOrChecksum)
    else Ok(r.(rows := r.rows + [row]))
  }

  /** `fence`: an epoch never goes back, nor to another leader within itself. */
  function Fenced(r: Replica, epoch: int, leader: string): Option<Replica> {
    if epoch < r.epoch || (epoch == r.epoch && leader != r.leader) then None
      else Some(r.(epoch := epoch, leader := leader))
  }

  // ---------------------------------------------------------------- the authority and its replicas

  datatype Packet = Packet(to: nat, row: Row, epoch: int, leader: string)

  const REPLICAS := 3

  /** `acks` are the replicas seen to hold the whole log during the current sync; `issued` the credentials
      the operator has chosen for this authority so far. */
  datatype World = World(rows: seq<Row>, committed: nat, epoch: int, leader: string, acks: set<nat>,
                         replicas: seq<Replica>, sent: set<Packet>, issued: set<(int, string)>)

  datatype Event =
    | Record(fact: Fact)                       // a durable local intent, once everything before it is committed
    | Send(to: nat, index: nat)                // a replication request for one row
    | Forge(packet: Packet)                    // a request of any other writer
    | Arrive(packet: Packet)                   // a request arrives, perhaps late or again
    | Acknowledge(from: nat)                   // a replica answers that it holds the whole log
    | Commit                                   // two answers: the log is marked committed
    | Interrupt                                // a crash, timeout or missing quorum ends the sync
    | Choose(epoch: int, leader: string)       // the operator picks credentials for this authority
    | Adopt(epoch: int, leader: string)        // the stopped authority is restarted with them
    | Fence(replica: nat, epoch: int, leader: string)

  function Next(h: RowHash, w: World, e: Event): Option<World> {
    match e
    case Record(f) =>
      if w.committed != |w.rows| then None
      else Some(w.(rows := w.rows + [Entry(h, |w.rows| + 1, HashAt(w.rows, |w.rows|), f)], acks := {}))
    case Send(k, i) =>
      if i < |w.rows| then Some(w.(sent := w.sent + {Packet(k, w.rows[i], w.epoch, w.leader)})) else None
    case Forge(p) => Some(w.(sent := w.sent + {p}))
    case Arrive(p) =>
      if p !in w.sent || p.to >= |w.replicas| then None
      else
        var r := AppendTo(h, w.replicas[p.to], p.row, p.epoch, p.leader);
        if r.Err? then None else Some(w.(replicas := w.replicas[p.to := r.value]))
    case Acknowledge(k) =>
      if k < |w.replicas| && w.replicas[k].epoch == w.epoch && w.replicas[k].leader == w.leader
         && |w.rows| <= |w.replicas[k].rows| && HashAt(w.replicas[k].rows, |w.rows|) == HashAt(w.rows, |w.rows|)
      then Some(w.(acks := w.acks + {k})) else None
    case Commit => if |w.acks| >= 2 then Some(w.(committed := |w.rows|, acks := {})) else None
    case Interrupt => Some(w.(acks := {}))
    case Choose(n, l) => Some(w.(issued := w.issued + {(n, l)}))
    case Adopt(n, l) => if (n, l) in w.issued then Some(w.(epoch := n, leader := l, acks := {})) else None
    case Fence(k, n, l) =>
      if k >= |w.replicas| then None
      else
        var r := Fenced(w.replicas[k], n, l);
        if r.None? then None else Some(w.(replicas := w.replicas[k := r.value]))
  }

  function Start(epoch: int, leader: string): World {
    World([], 0, epoch, leader, {}, seq(REPLICAS, _ => Replica([], epoch, leader)), {}, {(epoch, leader)})
  }

  function RunFrom(h: RowHash, w: World, events: seq<Event>): Option<World>
    decreases |events|
  {
    if events == [] then Some(w)
    else
      match Next(h, w, events[0])
      case None => None
      case Some(v) => RunFrom(h, v, events[1..])
  }

  // ---------------------------------------------------------------- committed prefixes stay on a majority

  /** The replicas that hold the first `n` rows of the authority's log. */
  function Holders(w: World, n: nat): set<nat>
    requires n <= |w.rows|
  {
    set k | 0 <= k < |w.replicas| && w.rows[..n] <= w.replicas[k].rows
  }

  ghost predicate Safe(h: RowHash, w: World) {
    && |w.replicas| == REPLICAS && Chained(h, w.rows)
       && (forall k :: 0 <= k < |w.replicas| ==> Chained(h, w.replicas[k].rows))
    && w.acks <= Holders(w, |w.rows|)
    && w.committed <= |w.rows| && (w.committed > 0 ==> |Holders(w, w.committed)| >= 2)
  }

  /** A log may only grow: what a replica holds it keeps. */
  lemma AppendOnlyGrows(h: RowHash, r: Replica, row: Row, epoch: int, leader: string)
    requires AppendTo(h, r, row, epoch, leader).Ok?
    ensures r.rows <= AppendTo(h, r, row, epoch, leader).value.rows
    ensures Chained(h, r.rows) ==> Chained(h, AppendTo(h, r, row, epoch, leader).value.rows)
  {
    hide Chained;
    if Chained(h, r.rows) { ChainExtends(h, r.rows, row.event); }
  }

  lemma HoldersGrow(w: World, v: World, n: nat)
    requires n <= |w.rows| && w.rows <= v.rows && |v.replicas| == |w.replicas|
    requires forall k :: 0 <= k < |w.replicas| ==> w.replicas[k].rows <= v.replicas[k].rows
    ensures Holders(w, n) <= Holders(v, n) && |Holders(w, n)| <= |Holders(v, n)|
  {
    assert v.rows[..n] == w.rows[..n];
    assert Holders(w, n) <= Holders(v, n);
    SubsetSize(Holders(w, n), Holders(v, n));
  }

  lemma SubsetSize(a: set<nat>, b: set<nat>)
    requires a <= b
    ensures |a| <= |b|
  {
    assert b == a + (b - a);
  }

  /** Logs only grow, and stay chained. */
  lemma NextGrows(h: RowHash, w: World, e: Event)
    requires Safe(h, w) && Next(h, w, e).Some?
    ensures var v := Next(h, w, e).value;
      && |v.replicas| == |w.replicas| && w.rows <= v.rows && Chained(h, v.rows)
      && forall k :: 0 <= k < |w.replicas| ==>
         w.replicas[k].rows <= v.replicas[k].rows && Chained(h, v.replicas[k].rows)
  {
    hide Chained, AppendTo, Entry, Holders;
    if e.Record? { ChainExtends(h, w.rows, e.fact); }
    if e.Arrive? { AppendOnlyGrows(h, w.replicas[e.packet.to], e.packet.row, e.packet.epoch, e.packet.leader); }
  }

  /** An answering replica holds the whole log. */
  lemma AnswerHolds(h: RowHash, w: World, k: nat)
    requires CollisionFree(h) && Safe(h, w) && Next(h, w, Acknowledge(k)).Some?
    ensures k in Holders(w, |w.rows|)
  {
    hide CollisionFree, Chained;
    HashNamesPrefix(h, w.replicas[k].rows, w.rows, |w.rows|);
    assert w.rows[..|w.rows|] == w.rows;
  }

  /** Every event, forged packets included, keeps the committed rows on two replicas. */
  lemma NextKeepsSafe(h: RowHash, w: World, e: Event)
    requires CollisionFree(h) && Safe(h, w) && Next(h, w, e).Some?
    ensures var v := Next(h, w, e).value; Safe(h, v) && w.rows <= v.rows && w.committed <= v.committed
  {
    hide CollisionFree, Chained, AppendTo, Entry, Holders, HashAt;
    var v := Next(h, w, e).value;
    NextGrows(h, w, e);
    HoldersGrow(w, v, w.committed);
    if v.rows == w.rows { HoldersGrow(w, v, |w.rows|); }
    if e.Acknowledge? { AnswerHolds(h, w, e.from); }
    if e.Commit? { SubsetSize(w.acks, Holders(w, |w.rows|)); }
  }

  lemma {:induction false} RunKeepsSafe(h: RowHash, w: World, events: seq<Event>)
    requires CollisionFree(h) && Safe(h, w) && RunFrom(h, w, events).Some?
    ensures var v := RunFrom(h, w, events).value; Safe(h, v) && w.rows <= v.rows && w.committed <= v.committed
    decreases |events|
  {
    hide CollisionFree, Safe, Next;
    if events != [] {
      NextKeepsSafe(h, w, events[0]);
      RunKeepsSafe(h, Next(h, w, events[0]).value, events[1..]);
    }
  }

  /** Rows committed at any time stay, unchanged and in place, in the authority and on two of three replicas for
      ever after, through partial appends, retries, restarts, fencing and other writers. */
  lemma CommittedStaysOnMajority(h: RowHash, epoch: int, leader: string, past: seq<Event>, future: seq<Event>)
    requires CollisionFree(h) && RunFrom(h, Start(epoch, leader), past).Some?
    requires RunFrom(h, RunFrom(h, Start(epoch, leader), past).value, future).Some?
    ensures var w := RunFrom(h, Start(epoch, leader), past).value; var v := RunFrom(h, w, future).value;
      && w.committed <= |w.rows| && w.committed <= |v.rows| && v.rows[..w.committed] == w.rows[..w.committed]
      && (w.committed > 0 ==> |Holders(v, w.committed)| >= 2)
  {
    hide CollisionFree, Chained, Next, RunFrom;
    StartIsSafe(h, epoch, leader);
    RunKeepsSafe(h, Start(epoch, leader), past);
    var w := RunFrom(h, Start(epoch, leader), past).value;
    RunKeepsSafe(h, w, future);
    var v := RunFrom(h, w, future).value;
    if w.committed > 0 { FewerRowsMoreHolders(v, w.committed, v.committed); }
  }

  lemma FewerRowsMoreHolders(w: World, m: nat, n: nat)
    requires m <= n <= |w.rows|
    ensures |Holders(w, n)| <= |Holders(w, m)|
  {
    forall k | k in Holders(w, n) ensures k in Holders(w, m) { ShorterPrefix(w.rows, w.replicas[k].rows, m, n); }
    SubsetSize(Holders(w, n), Holders(w, m));
  }

  lemma ShorterPrefix(a: seq<Row>, b: seq<Row>, m: nat, n: nat)
    requires m <= n <= |a| && a[..n] <= b
    ensures a[..m] <= b
  {
    assert a[..n][..m] == a[..m];
  }

  lemma StartIsSafe(h: RowHash, epoch: int, leader: string)
    ensures Safe(h, Start(epoch, leader))
  {
  }

  // ---------------------------------------------------------------- replicas are prefixes

  /** The operating rules: other writers never hold this authority's credentials, and replicas are fenced only to
      credentials chosen for it, which nobody has used before. */
  ghost predicate Disciplined(w: World, e: Event) {
    match e
    case Forge(p) => (p.epoch, p.leader) !in w.issued
    case Choose(n, l) => forall p :: p in w.sent ==> (p.epoch, p.leader) != (n, l) || (n, l) in w.issued
    case Fence(_, n, l) => (n, l) in w.issued
    case _ => true
  }

  ghost predicate DisciplinedRun(h: RowHash, w: World, events: seq<Event>)
    decreases |events|
  {
    events == [] || (Disciplined(w, events[0]) && match Next(h, w, events[0])
      case None => false
      case Some(v) => DisciplinedRun(h, v, events[1..]))
  }

  ghost predicate Authentic(w: World) {
    && (w.epoch, w.leader) in w.issued
    && (forall k :: 0 <= k < |w.replicas| ==>
         (w.replicas[k].epoch, w.replicas[k].leader) in w.issued && w.replicas[k].rows <= w.rows)
    && (forall p :: p in w.sent && (p.epoch, p.leader) in w.issued ==>
         1 <= p.row.seqno <= |w.rows| && w.rows[p.row.seqno - 1] == p.row)
  }

  lemma SequenceAt(h: RowHash, rows: seq<Row>, i: nat)
    requires Chained(h, rows) && i < |rows|
    ensures rows[i].seqno == i + 1
  {
    assert Linked(h, rows, i);
  }

  lemma NextKeepsAuthentic(h: RowHash, w: World, e: Event)
    requires Authentic(w) && Chained(h, w.rows) && Disciplined(w, e) && Next(h, w, e).Some?
    ensures Authentic(Next(h, w, e).value) && Chained(h, Next(h, w, e).value.rows)
  {
    hide Chained, AppendTo, Entry, HashAt;
    if e.Record? { ChainExtends(h, w.rows, e.fact); }
    if e.Send? && e.index < |w.rows| { SequenceAt(h, w.rows, e.index); }
    if e.Arrive? { ArrivalKeepsPrefix(h, w, e.packet); }
  }

  lemma ArrivalKeepsPrefix(h: RowHash, w: World, p: Packet)
    requires Authentic(w) && p in w.sent && p.to < |w.replicas|
      && AppendTo(h, w.replicas[p.to], p.row, p.epoch, p.leader).Ok?
    ensures AppendTo(h, w.replicas[p.to], p.row, p.epoch, p.leader).value.rows <= w.rows
    ensures var r := AppendTo(h, w.replicas[p.to], p.row, p.epoch, p.leader).value;
      r.epoch == w.replicas[p.to].epoch && r.leader == w.replicas[p.to].leader
  {
  }

  lemma {:induction false} RunKeepsAuthentic(h: RowHash, w: World, events: seq<Event>)
    requires Authentic(w) && Chained(h, w.rows) && DisciplinedRun(h, w, events)
    ensures RunFrom(h, w, events).Some? && Authentic(RunFrom(h, w, events).value)
    decreases |events|
  {
    hide Next, Authentic, Chained, Disciplined;
    if events != [] {
      NextKeepsAuthentic(h, w, events[0]);
      RunKeepsAuthentic(h, Next(h, w, events[0]).value, events[1..]);
    }
  }

  lemma StartIsAuthentic(h: RowHash, epoch: int, leader: string)
    ensures Authentic(Start(epoch, leader)) && Chained(h, Start(epoch, leader).rows)
  {
  }

  /** Under the operating rules every replica of a newly set up journal always holds a prefix of the authority's. */
  lemma ReplicasArePrefixes(h: RowHash, epoch: int, leader: string, events: seq<Event>)
    requires DisciplinedRun(h, Start(epoch, leader), events)
    ensures RunFrom(h, Start(epoch, leader), events).Some?
    ensures var w := RunFrom(h, Start(epoch, leader), events).value;
      |w.replicas| == REPLICAS && forall k :: 0 <= k < REPLICAS ==> w.replicas[k].rows <= w.rows
  {
    hide Next, Chained, Disciplined;
    StartIsAuthentic(h, epoch, leader);
    RunKeepsAuthentic(h, Start(epoch, leader), events);
    RunKeepsReplicas(h, Start(epoch, leader), events);
  }

  lemma {:induction false} RunKeepsReplicas(h: RowHash, w: World, events: seq<Event>)
    requires RunFrom(h, w, events).Some?
    ensures |RunFrom(h, w, events).value.replicas| == |w.replicas|
    decreases |events|
  {
    hide AppendTo, Fenced;
    if events != [] { RunKeepsReplicas(h, Next(h, w, events[0]).value, events[1..]); }
  }

  // ---------------------------------------------------------------- fencing

  /** The fence shuts these credentials out. */
  predicate ShutOut(r: Replica, epoch: int, leader: string) {
    epoch < r.epoch || (epoch == r.epoch && leader != r.leader)
  }

  lemma NextKeepsShutOut(h: RowHash, w: World, e: Event, k: nat, epoch: int, leader: string)
    requires k < |w.replicas| && ShutOut(w.replicas[k], epoch, leader) && Next(h, w, e).Some?
    ensures var v := Next(h, w, e).value; |v.replicas| == |w.replicas| && ShutOut(v.replicas[k], epoch, leader)
  {
  }

  /** Once a replica is fenced past some credentials, nothing they sign is accepted there at any later time. */
  lemma {:induction false} FencedForever(h: RowHash, w: World, events: seq<Event>, k: nat, p: Packet)
    requires k < |w.replicas| && ShutOut(w.replicas[k], p.epoch, p.leader) && RunFrom(h, w, events).Some?
    ensures var v := RunFrom(h, w, events).value;
      k < |v.replicas| && ShutOut(v.replicas[k], p.epoch, p.leader)
        && AppendTo(h, v.replicas[k], p.row, p.epoch, p.leader) == Err(StaleLeader)
    decreases |events|
  {
    hide Next;
    if events != [] {
      NextKeepsShutOut(h, w, events[0], k, p.epoch, p.leader);
      FencedForever(h, Next(h, w, events[0]).value, events[1..], k, p);
    }
  }

  // ---------------------------------------------------------------- the replica process

  class ReplicaProcess {
    var rows: seq<Row>
    var epoch: int
    var leader: string

    function Contents(): Replica
      reads this
    {
      Replica(rows, epoch, leader)
    }

    constructor (epoch: int, leader: string)
      ensures Contents() == Replica([], epoch, leader)
    {
      rows, this.epoch, this.leader := [], epoch, leader;
    }

    /** `append`, one transaction. */
    method Append(h: RowHash, row: Row, epoch: int, leader: string) returns (denial: Option<Denial>)
      modifies this`rows
      ensures match AppendTo(h, old(Contents()), row, epoch, leader)
        case Ok(r) => denial == None && Contents() == r
        case Err(d) => denial == Some(d) && Contents() == old(Contents())
    {
      if epoch != this.epoch || leader != this.leader { return Some(StaleLeader); }
      if row.seqno < 1 { return Some(BadSequence); }
      if row.seqno <= |rows| {
        if rows[row.seqno - 1] != row { return Some(PrefixConflict); }
      } else {
        if row.seqno != |rows| + 1 || row != Entry(h, row.seqno, HashAt(rows, |rows|), row.event) {
          return Some(GapOrChecksum);
        }
        rows := rows + [row];
      }
      denial := None;
    }
  }
}
