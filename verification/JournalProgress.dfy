/** What the journal's replicas accept, and why its whole log can always be committed. */
module JournalProgress {
  import opened Wrappers
  import opened WalletJournal

  // ---------------------------------------------------------------- one row at one replica

  /** A replica with a chained log accepts, under its own credentials, exactly the rows it has and the rows that keep
      the chain when put behind them; only those change it. The first reason that applies is the one given. */
  lemma AppendIsExact(h: RowHash, r: Replica, row: Row, epoch: int, leader: string)
    requires Chained(h, r.rows)
    ensures var a := AppendTo(h, r, row, epoch, leader);
      var ours := epoch == r.epoch && leader == r.leader;
      var known := 1 <= row.seqno <= |r.rows|;
      && (a.Ok? <==> ours && (row in r.rows || Chained(h, r.rows + [row])))
      && (a.Ok? ==> a.value.epoch == r.epoch && a.value.leader == r.leader)
      && (a.Ok? ==> a.value.rows == if row in r.rows then r.rows else r.rows + [row])
      && (a == Err(StaleLeader) <==> !ours)
      && (a == Err(BadSequence) <==> ours && row.seqno < 1)
      && (a == Err(PrefixConflict) <==> ours && known && r.rows[row.seqno - 1] != row)
  {
    var longer := r.rows + [row];
    forall i | 0 <= i < |r.rows| ensures r.rows[i].seqno == i + 1 { SequenceAt(h, r.rows, i); }
    assert HashAt(longer, |r.rows|) == HashAt(r.rows, |r.rows|);
    if Chained(h, longer) {
      SequenceAt(h, longer, |r.rows|);
      assert Linked(h, longer, |r.rows|);
    }
    if row.seqno == |r.rows| + 1 && row == Entry(h, row.seqno, HashAt(r.rows, |r.rows|), row.event) {
      ChainExtends(h, r.rows, row.event);
    }
    if 1 <= row.seqno <= |r.rows| && r.rows[row.seqno - 1] == row { assert row in r.rows; }
  }

  // ---------------------------------------------------------------- disciplined futures

  ghost predicate Reaches(h: RowHash, w: World, v: World) {
    exists events :: DisciplinedRun(h, w, events) && RunFrom(h, w, events) == Some(v)
  }

  lemma {:induction false} RunsJoin(h: RowHash, w: World, a: seq<Event>, v: World, b: seq<Event>)
    requires DisciplinedRun(h, w, a) && RunFrom(h, w, a) == Some(v) && DisciplinedRun(h, v, b)
    ensures DisciplinedRun(h, w, a + b) && RunFrom(h, w, a + b) == RunFrom(h, v, b)
    decreases |a|
  {
    hide Next, Disciplined;
    if a == [] {
      assert a + b == b;
    } else {
      RunsJoin(h, Next(h, w, a[0]).value, a[1..], v, b);
      assert (a + b)[1..] == a[1..] + b;
    }
  }

  lemma ReachesOn(h: RowHash, u: World, w: World, e: Event)
    requires Reaches(h, u, w) && Disciplined(w, e) && Next(h, w, e).Some?
    ensures Reaches(h, u, Next(h, w, e).value)
  {
    hide Next, Disciplined;
    var a :| DisciplinedRun(h, u, a) && RunFrom(h, u, a) == Some(w);
    var v := Next(h, w, e).value;
    assert [e][1..] == [] && DisciplinedRun(h, v, []) && RunFrom(h, v, []) == Some(v);
    RunsJoin(h, u, a, w, [e]);
  }

  lemma ReachesItself(h: RowHash, w: World)
    ensures Reaches(h, w, w)
  {
    assert DisciplinedRun(h, w, []) && RunFrom(h, w, []) == Some(w);
  }

  // ---------------------------------------------------------------- the log can be committed

  /** Replica `k` listens to the authority. */
  predicate Listens(w: World, k: nat) {
    k < |w.replicas| && w.replicas[k].epoch == w.epoch && w.replicas[k].leader == w.leader
  }

  ghost predicate Sound(h: RowHash, w: World) { Authentic(w) && Chained(h, w.rows) && |w.replicas| == REPLICAS }

  /** An epoch above every one a packet or a replica carries. */
  lemma {:induction false} NewEpoch(sent: set<Packet>, floor: int) returns (n: int)
    ensures n > floor && forall p :: p in sent ==> p.epoch < n
  {
    if sent == {} {
      n := floor + 1;
    } else {
      var p :| p in sent;
      var m := NewEpoch(sent - {p}, floor);
      n := if p.epoch < m then m else p.epoch + 1;
    }
  }

  /** Fresh credentials can be chosen and two replicas turned to them. */
  lemma CanFence(h: RowHash, u: World, w: World) returns (v: World)
    requires Reaches(h, u, w) && Sound(h, w)
    ensures Reaches(h, u, v) && Sound(h, v) && v.rows == w.rows && Listens(v, 0) && Listens(v, 1)
  {
    hide Reaches, Authentic, Chained;
    var r := w.replicas;
    var n := NewEpoch(w.sent, r[0].epoch);
    if n <= r[1].epoch { n := r[1].epoch + 1; }
    v := CanTake(h, u, w, Choose(n, ""));
    v := CanTake(h, u, v, Adopt(n, ""));
    v := CanTake(h, u, v, Fence(0, n, ""));
    v := CanTake(h, u, v, Fence(1, n, ""));
  }

  lemma CanTake(h: RowHash, u: World, w: World, e: Event) returns (v: World)
    requires Reaches(h, u, w) && Sound(h, w) && Disciplined(w, e) && Next(h, w, e).Some?
    ensures v == Next(h, w, e).value && Reaches(h, u, v) && Sound(h, v)
  {
    hide Reaches, Disciplined, Authentic, Chained, AppendTo;
    v := Next(h, w, e).value;
    ReachesOn(h, u, w, e);
    NextKeepsAuthentic(h, w, e);
  }

  /** A listening replica can be brought up to the authority's whole log; nobody else is affected. */
  lemma {:induction false} CanReplicate(h: RowHash, u: World, w: World, k: nat) returns (v: World)
    requires Reaches(h, u, w) && Sound(h, w) && Listens(w, k)
    ensures Reaches(h, u, v) && Sound(h, v) && v.rows == w.rows && v.replicas[k].rows == w.rows
    ensures Listens(v, k) && forall j :: 0 <= j < REPLICAS && j != k ==> v.replicas[j] == w.replicas[j]
    ensures v.epoch == w.epoch && v.leader == w.leader
    decreases |w.rows| - |w.replicas[k].rows|
  {
    hide Reaches, Authentic, Chained, AppendTo;
    HoldsPrefix(w, k);
    v := w;
    var i := |w.replicas[k].rows|;
    if i < |w.rows| {
      NextRowFits(h, w, k);
      var p := Packet(k, w.rows[i], w.epoch, w.leader);
      v := CanTake(h, u, v, Send(k, i));
      v := CanTake(h, u, v, Arrive(p));
      v := CanReplicate(h, u, v, k);
    }
  }

  lemma HoldsPrefix(w: World, k: nat)
    requires Authentic(w) && k < |w.replicas|
    ensures w.replicas[k].rows <= w.rows
  {
  }

  lemma NextRowFits(h: RowHash, w: World, k: nat)
    requires Sound(h, w) && Listens(w, k) && |w.replicas[k].rows| < |w.rows|
    ensures var r := w.replicas[k]; var row := w.rows[|r.rows|];
      AppendTo(h, r, row, w.epoch, w.leader) == Ok(r.(rows := r.rows + [row]))
  {
    var r := w.replicas[k];
    assert Linked(h, w.rows, |r.rows|);
    assert HashAt(r.rows, |r.rows|) == HashAt(w.rows, |r.rows|);
  }

  /** From every state the operating rules allow, whatever was lost, fenced or interrupted, they allow a continuation
      that commits the whole log as it stands. */
  lemma EveryLogCanCommit(h: RowHash, epoch: int, leader: string, past: seq<Event>)
    returns (future: seq<Event>)
    requires DisciplinedRun(h, Start(epoch, leader), past)
    ensures RunFrom(h, Start(epoch, leader), past).Some?
    ensures var w := RunFrom(h, Start(epoch, leader), past).value;
      && DisciplinedRun(h, w, future) && RunFrom(h, w, future).Some?
      && var v := RunFrom(h, w, future).value; v.rows == w.rows && v.committed == |w.rows|
  {
    hide Authentic, Chained, AppendTo, DisciplinedRun, RunFrom, Start;
    StartIsAuthentic(h, epoch, leader);
    RunKeepsAuthentic(h, Start(epoch, leader), past);
    ReplicasArePrefixes(h, epoch, leader, past);
    var w := RunFrom(h, Start(epoch, leader), past).value;
    RunKeepsChain(h, Start(epoch, leader), past);
    var v := CanCommit(h, w);
    future :| DisciplinedRun(h, w, future) && RunFrom(h, w, future) == Some(v);
  }

  lemma {:induction false} RunKeepsChain(h: RowHash, w: World, events: seq<Event>)
    requires Authentic(w) && Chained(h, w.rows) && DisciplinedRun(h, w, events) && RunFrom(h, w, events).Some?
    ensures Chained(h, RunFrom(h, w, events).value.rows)
    decreases |events|
  {
    hide Next, Authentic, Chained, Disciplined;
    if events != [] {
      NextKeepsAuthentic(h, w, events[0]);
      RunKeepsChain(h, Next(h, w, events[0]).value, events[1..]);
    }
  }

  lemma CanCommit(h: RowHash, w: World) returns (v: World)
    requires Sound(h, w)
    ensures Reaches(h, w, v) && v.rows == w.rows && v.committed == |w.rows|
  {
    hide Reaches, Authentic, Chained, AppendTo;
    ReachesItself(h, w);
    v := CanFence(h, w, w);
    v := CanReplicate(h, w, v, 0);
    v := CanReplicate(h, w, v, 1);
    v := CanTake(h, w, v, Acknowledge(0));
    v := CanTake(h, w, v, Acknowledge(1));
    assert {0, 1} <= v.acks;
    SubsetSize({0, 1}, v.acks);
    v := CanTake(h, w, v, Commit);
  }
}
