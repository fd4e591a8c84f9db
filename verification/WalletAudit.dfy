/** Conservation of money, and the audit, over every run. */
module WalletAudit {
  import opened Wrappers
  import opened Sorting
  import opened Sums
  import opened WalletShard
  import opened Transfers
  import opened TransferSafety

  // ---------------------------------------------------------------- conservation

  function ShardTotal(names: seq<string>): Shard -> int {
    (s: Shard) => Total(names, a => Worth(s.accounts, a))
  }

  function Wallet(c: Config, shards: seq<Shard>): int { Total(shards, ShardTotal(c.names)) }

  /** Money a transfer has taken from its source and not yet brought to its destination. */
  function InTransit(c: Config, shards: seq<Shard>, b: Intent): int {
    if Cross(c, b) && Is(PartAt(shards, SourceShard(c, b), b.id), Confirmed)
      && !Is(PartAt(shards, TargetShard(c, b), b.id), Confirmed)
    then b.amount else 0
  }

  function Transit(c: Config, s: System): int {
    Total(Bodies(s.log), Moving(c, s.shards))
  }

  function Moving(c: Config, shards: seq<Shard>): Intent -> int { (b: Intent) => InTransit(c, shards, b) }

  function OpeningOf(c: Config, a: string): int { if a in c.opening then c.opening[a] else 0 }

  function Supply(c: Config): int { Total(c.names, a => OpeningOf(c, a)) }

  ghost predicate Conserved(c: Config, s: System) {
    Wallet(c, s.shards) + Transit(c, s) == Supply(c)
  }

  lemma {:induction false} BodiesAreBook(log: seq<Fact>)
    requires Project(log).Some?
    ensures Distinct(Bodies(log))
    ensures forall b :: b in Bodies(log) <==> b.id in Project(log).value && Project(log).value[b.id].body == b
    ensures forall id :: id in Project(log).value ==> Project(log).value[id].body.id == id
  {
    if log != [] {
      var front, f := log[..|log| - 1], log[|log| - 1];
      BodiesAreBook(front);
      if f.Accepted? { assert f.body !in Bodies(front); }
    }
  }

  /** Opening money of the accounts on the first `n` shards. */
  function Below(c: Config, n: nat): string -> int {
    (a: string) => if c.route(a) < n then OpeningOf(c, a) else 0
  }

  lemma {:induction false} OpeningShards(c: Config, n: nat, shards: seq<Shard>)
    requires ConfigOk(c) && n <= c.count && |shards| == n
      && forall i :: 0 <= i < n ==> shards[i] == Genesis(Opening(c, i))
    ensures Wallet(c, shards) == Total(c.names, Below(c, n))
  {
    hide ConfigOk, Genesis, Opening, ShardTotal, Below;
    if n == 0 {
      NothingBelow(c);
    } else {
      var front := shards[..n - 1];
      OpeningShards(c, n - 1, front);
      OpeningShard(c, n);
      assert shards == front + [shards[n - 1]];
      TotalAppend(front, shards[n - 1], ShardTotal(c.names));
    }
  }

  lemma NothingBelow(c: Config)
    ensures Total(c.names, Below(c, 0)) == 0
  {
    ZeroTotal(c.names, Below(c, 0));
  }

  lemma OpeningShard(c: Config, n: nat)
    requires ConfigOk(c) && 1 <= n <= c.count
    ensures Total(c.names, Below(c, n))
      == Total(c.names, Below(c, n - 1)) + ShardTotal(c.names)(Genesis(Opening(c, n - 1)))
  {
    var last := Genesis(Opening(c, n - 1));
    TotalAdds(c.names, Below(c, n - 1), (a: string) => Worth(last.accounts, a), Below(c, n));
  }

  lemma {:induction false} ZeroTotal<T>(xs: seq<T>, f: T -> int)
    requires forall x :: x in xs ==> f(x) == 0
    ensures Total(xs, f) == 0
  {
    if xs != [] { ZeroTotal(xs[1..], f); }
  }

  lemma InitConserves(c: Config)
    requires ConfigOk(c)
    ensures Conserved(c, Init(c))
  {
    OpeningShards(c, c.count, Init(c).shards);
    SameTotal(c.names, Below(c, c.count), a => OpeningOf(c, a));
  }

  /** Steps that touch no shard leave every sum alone: a newly accepted transfer has nothing in transit. */
  lemma QuietStepConserves(c: Config, s: System, t: System)
    requires Inv(c, s) && Conserved(c, s) && t.shards == s.shards && Project(t.log).Some?
    requires t.log == s.log || (|t.log| == |s.log| + 1 && t.log[..|s.log|] == s.log)
    ensures Conserved(c, t)
  {
    hide Project, ShardsOk, Warranted, CrossOk, LocalOk;
    assert Wallet(c, t.shards) == Wallet(c, s.shards) && Moving(c, t.shards) == Moving(c, s.shards);
    if t.log == s.log {
      assert Bodies(t.log) == Bodies(s.log);
    } else if !t.log[|s.log|].Accepted? {
      assert Bodies(t.log) == Bodies(s.log) + [] == Bodies(s.log);
    } else {
      assert Bodies(t.log) == Bodies(s.log) + [t.log[|s.log|].body];
      var b := t.log[|s.log|].body;
      assert Apply(Project(s.log).value, Accepted(b)).Some? by { LastRowReplays(t.log); }
      assert Coherent(c, s.shards, Known(s), Project(s.log).value, b.id) && Owned(c, s.shards, Known(s), b.id);
      assert InTransit(c, s.shards, b) == 0;
      TotalAppend(Bodies(s.log), b, Moving(c, s.shards));
    }
  }

  lemma LastRowReplays(log: seq<Fact>)
    requires log != [] && Project(log).Some?
    ensures Project(log[..|log| - 1]).Some? && Apply(Project(log[..|log| - 1]).value, log[|log| - 1]).Some?
  {
  }

  /** A delivery moves between the shards and the transfers in transit exactly what it adds or takes. */
  lemma DeliveryMovesTransit(c: Config, s: System, m: Message)
    requires Inv(c, s) && Next(c, s, Deliver(m)).Some?
      && Act(s.shards[m.index], c.route, m.index, m.event).value.appended
    ensures var t := Next(c, s, Deliver(m)).value;
      InTransit(c, t.shards, m.event.intent) == InTransit(c, s.shards, m.event.intent) - Inflow(m.event)
  {
    hide Project, ShardsOk, Reduce;
    var b := m.event.intent;
    var t := Next(c, s, Deliver(m)).value;
    assert Warranted(c, s.shards, Known(s), m);
    assert Coherent(c, s.shards, Known(s), Project(s.log).value, b.id);
    AppendedRecord(s.shards[m.index], c.route, m.index, m.event);
    if Cross(c, b) {
      assert SourceShard(c, b) != m.index ==>
        PartAt(t.shards, SourceShard(c, b), b.id) == PartAt(s.shards, SourceShard(c, b), b.id);
      assert TargetShard(c, b) != m.index ==>
        PartAt(t.shards, TargetShard(c, b), b.id) == PartAt(s.shards, TargetShard(c, b), b.id);
    }
  }

  lemma AppendedRecord(s: Shard, route: Route, index: nat, e: Event)
    requires Act(s, route, index, e).Ok? && Act(s, route, index, e).value.appended
    ensures var t := Act(s, route, index, e).value.state; var id := e.intent.id;
      && Reduce(s, e) == Some(t) && Admits(s, e) && id in t.parts
         && t.parts[id] == Part(e.intent, e.role, Resulting(s, e))
  {
  }

  lemma DeliveryConserves(c: Config, s: System, m: Message)
    requires ConfigOk(c) && Inv(c, s) && Conserved(c, s) && Next(c, s, Deliver(m)).Some?
    ensures Conserved(c, Next(c, s, Deliver(m)).value)
  {
    hide Project, Warranted, Reduce, CrossOk, LocalOk;
    var t := Next(c, s, Deliver(m)).value;
    var d := Act(s.shards[m.index], c.route, m.index, m.event).value;
    if !d.appended {
      assert t.shards == s.shards;
    } else {
      AppendedRecord(s.shards[m.index], c.route, m.index, m.event);
      ReduceMovesInflow(s.shards[m.index], m.event, c.names);
      TotalUpdate(s.shards, m.index, d.state, ShardTotal(c.names));
      DeliveryMovesTransit(c, s, m);
      DeliveryTouchesOne(c, s, m);
    }
  }

  lemma DeliveryTouchesOne(c: Config, s: System, m: Message)
    requires Inv(c, s) && Next(c, s, Deliver(m)).Some?
    ensures var t := Next(c, s, Deliver(m)).value; var b := m.event.intent;
      Transit(c, t) == Transit(c, s) + InTransit(c, t.shards, b) - InTransit(c, s.shards, b)
  {
    hide Project, Act, ShardsOk, CrossOk, LocalOk;
    var t := Next(c, s, Deliver(m)).value;
    var b := m.event.intent;
    BodiesAreBook(s.log);
    ActDelivers(s.shards[m.index], c.route, m.index, m.event);
    assert Warranted(c, s.shards, Known(s), m);
    var f, g := Moving(c, s.shards), Moving(c, t.shards);
    forall i: nat, id | id != b.id ensures PartAt(t.shards, i, id) == PartAt(s.shards, i, id) { }
    forall x | x in Bodies(s.log) && x != b ensures f(x) == g(x) { assert x.id != b.id; }
    OneChanges(Bodies(s.log), f, g, b);
  }

  /** Money is conserved at every step of every run. */
  lemma NextConserves(c: Config, s: System, e: Step)
    requires ConfigOk(c) && Inv(c, s) && Conserved(c, s) && Next(c, s, e).Some?
    ensures Conserved(c, Next(c, s, e).value)
  {
    hide Conserved, Inv, Project, Act, Apply;
    NextKeepsInv(c, s, e);
    var t := Next(c, s, e).value;
    if e.Deliver? {
      DeliveryConserves(c, s, e.message);
    } else {
      QuietStepAddsOneRow(c, s, e);
      ReplaysAfter(c, t);
      QuietStepConserves(c, s, t);
    }
  }

  lemma ReplaysAfter(c: Config, s: System)
    requires Inv(c, s)
    ensures Project(s.log).Some?
  {
  }

  lemma QuietStepAddsOneRow(c: Config, s: System, e: Step)
    requires !e.Deliver? && Next(c, s, e).Some?
    ensures var t := Next(c, s, e).value;
      t.shards == s.shards && (t.log == s.log || (|t.log| == |s.log| + 1 && t.log[..|s.log|] == s.log))
  {
    hide Project;
  }

  /** In every reachable state available, held and in-transit money together are the opening supply. */
  lemma {:induction false} RunConserves(c: Config, steps: seq<Step>)
    requires ConfigOk(c) && Run(c, steps).Some?
    ensures Conserved(c, Run(c, steps).value)
  {
    hide Inv, Next, Init, Conserved;
    if steps == [] {
      InitConserves(c);
    } else {
      var front := steps[..|steps| - 1];
      RunConserves(c, front);
      RunKeepsInv(c, front);
      NextConserves(c, Run(c, front).value, steps[|steps| - 1]);
    }
  }

  // ---------------------------------------------------------------- what a reachable state can look like

  /** `audit`, on a synced journal: every check it makes on one transfer. */
  predicate AuditsTransfer(c: Config, s: System, id: string, t: Transfer) {
    var b := t.body;
    var left, right := PartAt(s.shards, SourceShard(c, b), id), PartAt(s.shards, TargetShard(c, b), id);
    if !Cross(c, b) then
      && t.decision.None?
      && (left.Some? ==> left.value.intent == b && left.value.role == Local)
      && (t.outcome == Some(Declined) ==> Is(left, Rejected)) && (t.outcome == Some(Succeeded) ==> Is(left, Confirmed))
    else
      && (left.Some? ==> left.value.intent == b && left.value.role == Source)
      && (right.Some? ==> right.value.intent == b && right.value.role == Destination)
      && (Is(left, Confirmed) && !Is(right, Confirmed) ==> t.decision == Some(true))
      && (Is(right, Confirmed) ==> Is(left, Confirmed) && t.decision == Some(true))
      && (t.outcome == Some(Succeeded) ==> Is(left, Confirmed) && Is(right, Confirmed))
      && (t.outcome == Some(Withdrawn) ==> Is(left, Canceled) && Is(right, Canceled))
  }

  /** What `participant` requires of every record a shard shows. */
  predicate Presentable(p: Part) {
    p.intent.Valid() && (p.role.Local? ==> p.status.Confirmed? || p.status.Rejected?)
  }

  /** The record is in order, and belongs to a transfer of this shard. */
  predicate Belonging(c: Config, shards: seq<Shard>, book: Book, i: nat, id: string)
    requires i < |shards| && id in shards[i].parts
  {
    var p := shards[i].parts[id];
    && Presentable(p) && id in book && p.intent == book[id].body
    && (i == SourceShard(c, book[id].body) || i == TargetShard(c, book[id].body))
  }

  /** `audit`: account distribution, balance bounds, every record and transfer, no orphan record, and the money
      supply. */
  ghost predicate AuditMatches(c: Config, s: System, book: Book) {
    && (forall i :: 0 <= i < |s.shards| ==> forall a :: a in s.shards[i].accounts <==> a in c.names && c.route(a) == i)
    && (forall i, a :: 0 <= i < |s.shards| && a in s.shards[i].accounts ==>
          var x := s.shards[i].accounts[a]; 0 <= x.available <= Supply(c) && 0 <= x.held <= Supply(c))
    && (forall id :: id in book ==> AuditsTransfer(c, s, id, book[id]))
    && (forall i, id :: 0 <= i < |s.shards| && id in s.shards[i].parts ==> Belonging(c, s.shards, book, i, id))
    && Conserved(c, s)
  }

  lemma BalanceIsBounded(c: Config, s: System, i: nat, a: string)
    requires ConfigOk(c) && Inv(c, s) && Conserved(c, s) && i < |s.shards| && a in s.shards[i].accounts
    ensures var x := s.shards[i].accounts[a]; 0 <= x.available <= Supply(c) && 0 <= x.held <= Supply(c)
  {
    hide Project, CrossOk, LocalOk, Warranted, WorkerOk;
    forall sh, n | sh in s.shards && n in c.names ensures Worth(sh.accounts, n) >= 0 {
      var j :| 0 <= j < |s.shards| && s.shards[j] == sh;
      assert Sound(s.shards[j]);
    }
    var shard := s.shards[i];
    TotalNonNegative(c.names, (n: string) => Worth(shard.accounts, n));
    forall sh | sh in s.shards ensures ShardTotal(c.names)(sh) >= 0 {
      TotalNonNegative(c.names, (n: string) => Worth(sh.accounts, n));
    }
    TotalNonNegative(s.shards, ShardTotal(c.names));
    BodiesAreBook(s.log);
    forall b | b in Bodies(s.log) ensures Moving(c, s.shards)(b) >= 0 {
      assert Coherent(c, s.shards, Known(s), Project(s.log).value, b.id);
    }
    TotalNonNegative(Bodies(s.log), Moving(c, s.shards));
    assert shard in s.shards && a in c.names && Sound(shard);
    assert Worth(shard.accounts, a) <= ShardTotal(c.names)(shard);
  }

  lemma RecordBelongs(c: Config, s: System, i: nat, id: string)
    requires Inv(c, s) && s.committed == |s.log| && i < |s.shards| && id in s.shards[i].parts
    ensures Belonging(c, s.shards, Project(s.log).value, i, id)
  {
    hide Project, Warranted, WorkerOk, CrossOk;
    WorkerKnowsAll(c, s);
    assert Coherent(c, s.shards, Known(s), Project(s.log).value, id) && Owned(c, s.shards, Known(s), id);
    assert Sound(s.shards[i]);
  }

  lemma TransferAudits(c: Config, s: System, id: string)
    requires Inv(c, s) && s.committed == |s.log| && id in Project(s.log).value
    ensures AuditsTransfer(c, s, id, Project(s.log).value[id])
  {
    hide Project, Warranted, WorkerOk, ShardsOk;
    WorkerKnowsAll(c, s);
    assert Coherent(c, s.shards, Known(s), Project(s.log).value, id);
  }

  lemma InvPassesAudit(c: Config, s: System)
    requires ConfigOk(c) && Inv(c, s) && Conserved(c, s) && s.committed == |s.log|
    ensures AuditMatches(c, s, Project(s.log).value)
  {
    hide Project, Coherent, Warranted, WorkerOk, Conserved, Sound, Supply, AuditsTransfer, Belonging;
    var book := Project(s.log).value;
    forall i, a | 0 <= i < |s.shards| && a in s.shards[i].accounts
      ensures var x := s.shards[i].accounts[a]; 0 <= x.available <= Supply(c) && 0 <= x.held <= Supply(c)
    {
      BalanceIsBounded(c, s, i, a);
    }
    forall id | id in book ensures AuditsTransfer(c, s, id, book[id]) { TransferAudits(c, s, id); }
    forall i, id | 0 <= i < |s.shards| && id in s.shards[i].parts ensures Belonging(c, s.shards, book, i, id) {
      RecordBelongs(c, s, i, id);
    }
  }

  /** The audit finds nothing wrong in any reachable state, mid-transfer states included. */
  lemma EveryReachableStatePassesAudit(c: Config, steps: seq<Step>)
    requires ConfigOk(c) && Run(c, steps).Some? && Synced(Run(c, steps).value)
    ensures var s := Run(c, steps).value; Project(s.log).Some? && AuditMatches(c, s, Project(s.log).value)
  {
    hide Project, Run, Conserved, Coherent, Warranted, ShardsOk, WorkerOk, AuditMatches;
    RunKeepsInv(c, steps);
    RunConserves(c, steps);
    InvPassesAudit(c, Run(c, steps).value);
  }

  /** No transfer is ever confirmed at one participant and cancelled at the other, and none is credited at its
      destination before it was taken at its source. */
  lemma TransfersAreAtomic(c: Config, steps: seq<Step>, i: nat, j: nat, id: string)
    requires ConfigOk(c) && Run(c, steps).Some?
    ensures var s := Run(c, steps).value;
      && !(Is(PartAt(s.shards, i, id), Confirmed) && Is(PartAt(s.shards, j, id), Canceled))
      && (Is(PartAt(s.shards, i, id), Confirmed) && PartAt(s.shards, i, id).value.role == Destination ==>
            Is(PartAt(s.shards, SourceShard(c, PartAt(s.shards, i, id).value.intent), id), Confirmed))
  {
    hide Project, Warranted, Run, ShardsOk;
    var s := Run(c, steps).value;
    RunKeepsInv(c, steps);
    assert Coherent(c, s.shards, Known(s), Project(s.log).value, id) && Owned(c, s.shards, Known(s), id);
  }
}
