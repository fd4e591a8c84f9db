/** Every step of every actor keeps the journal, the records, the commands in flight and the worker coherent. */
module TransferSafety {
  import opened Wrappers
  import opened WalletShard
  import opened Transfers

  function FactId(f: Fact): string { if f.Accepted? then f.body.id else f.id }

  /** A row may be added when it replays and tells the truth about the participants. */
  lemma NotedKeepsInv(c: Config, s: System, f: Fact)
    requires Inv(c, s) && s.committed == |s.log|
    requires Apply(Project(s.log).value, f).Some?
      && Coherent(c, s.shards, Project(s.log).value, Apply(Project(s.log).value, f).value, FactId(f))
    ensures Inv(c, Noted(s, f))
  {
    hide Project, Owned, CrossOk, LocalOk, Warranted, ShardsOk;
    var t := Noted(s, f);
    var book := Project(s.log).value;
    ProjectAppend(s.log, f);
    ApplyGrows(book, f);
    assert s.log[..s.committed] == s.log && t.log[..t.committed] == s.log;
    forall id ensures Coherent(c, t.shards, Known(t), Project(t.log).value, id) {
      assert Coherent(c, s.shards, Known(s), book, id);
    }
  }

  lemma SendingKeepsInv(c: Config, s: System, m: Message)
    requires Inv(c, s) && Warranted(c, s.shards, Known(s), m)
    ensures Inv(c, s.(sent := s.sent + {m}, worker := Idle))
  {
    hide Project, Coherent, Warranted, ShardsOk;
  }

  lemma WorkerKeepsInv(c: Config, s: System, w: Worker)
    requires Inv(c, s) && WorkerOk(c, s.(worker := w), Project(s.log).value)
    ensures Inv(c, s.(worker := w))
  {
    hide Project, Coherent, Warranted, ShardsOk;
  }

  /** At a quorum the whole journal becomes known; every record and command stays warranted. */
  lemma SyncKeepsInv(c: Config, s: System)
    requires Inv(c, s) && s.worker.Idle?
    ensures Inv(c, s.(committed := |s.log|))
  {
    hide Project, ShardsOk;
    var t := s.(committed := |s.log|);
    var book := Project(s.log).value;
    assert s.log[..|s.log|] == s.log;
    forall id ensures Coherent(c, t.shards, book, book, id) {
      assert Coherent(c, s.shards, Known(s), book, id);
    }
    forall m | m in t.sent ensures Warranted(c, t.shards, book, m) { assert Warranted(c, s.shards, Known(s), m); }
  }

  /** What one delivery does to the record it is for. */
  predicate Delivered(before: Option<Part>, after: Option<Part>, e: Event) {
    && after.Some? && after.value.intent == e.intent && after.value.role == e.role
    && (before.Some? ==> before.value.intent == e.intent && before.value.role == e.role)
    && match e.kind
       case Move => if before.Some? then after == before else Is(after, Confirmed) || Is(after, Rejected)
       case Prepare => if before.Some? then after == before else Is(after, Prepared) || Is(after, Rejected)
       case Confirm => Is(after, Confirmed) && (Is(before, Prepared) || Is(before, Confirmed))
       case Cancel => Is(after, Canceled) && !Is(before, Confirmed)
  }

  lemma ActDelivers(s: Shard, route: Route, index: nat, e: Event)
    requires Act(s, route, index, e).Ok?
    ensures var t := Act(s, route, index, e).value.state; var id := e.intent.id;
      && Delivered(if id in s.parts then Some(s.parts[id]) else None, if id in t.parts then Some(t.parts[id])
         else None, e)
      && (forall x :: x != id ==> (x in t.parts <==> x in s.parts) && (x in t.parts ==> t.parts[x] == s.parts[x]))
  {
    hide Moved;
  }

  /** The delivered record stays coherent with the journal. */
  lemma DeliveryKeepsCoherent(c: Config, s: System, m: Message, shards: seq<Shard>, book: Book)
    requires JournalOk(s) && book == Project(s.log).value && Coherent(c, s.shards, Known(s), book, m.event.intent.id)
    requires Warranted(c, s.shards, Known(s), m) && |shards| == |s.shards|
    requires var id := m.event.intent.id;
      && Delivered(PartAt(s.shards, m.index, id), PartAt(shards, m.index, id), m.event)
      && forall i :: 0 <= i < |shards| && i != m.index ==> shards[i] == s.shards[i]
    ensures Coherent(c, shards, Known(s), book, m.event.intent.id)
  {
    hide Project;
    var b := m.event.intent;
    assert b.id in book && book[b.id].body == b;
    assert forall i :: 0 <= i < |shards| ==> PartAt(shards, i, b.id).Some? == (b.id in shards[i].parts);
    if Cross(c, b) {
      assert SourceShard(c, b) != m.index ==>
        PartAt(shards, SourceShard(c, b), b.id) == PartAt(s.shards, SourceShard(c, b), b.id);
      assert TargetShard(c, b) != m.index ==>
        PartAt(shards, TargetShard(c, b), b.id) == PartAt(s.shards, TargetShard(c, b), b.id);
    }
  }

  lemma DeliveryKeepsOthers(c: Config, s: System, shards: seq<Shard>, known: Book, book: Book, id: string)
    requires Coherent(c, s.shards, known, book, id) && |shards| == |s.shards|
    requires forall i :: 0 <= i < |shards| ==> PartAt(shards, i, id) == PartAt(s.shards, i, id)
    ensures Coherent(c, shards, known, book, id)
  {
    forall i | 0 <= i < |shards| && id in shards[i].parts
      ensures id in s.shards[i].parts && shards[i].parts[id] == s.shards[i].parts[id]
    {
      assert PartAt(shards, i, id) == PartAt(s.shards, i, id);
    }
    if id in book {
      var b := book[id].body;
      assert PartAt(shards, SourceShard(c, b), id) == PartAt(s.shards, SourceShard(c, b), id);
      assert PartAt(shards, TargetShard(c, b), id) == PartAt(s.shards, TargetShard(c, b), id);
    }
  }

  lemma DeliveryKeepsWarranted(c: Config, shards: seq<Shard>, shards': seq<Shard>, known: Book, m: Message)
    requires Warranted(c, shards, known, m) && |shards'| == |shards|
    requires forall i, id :: 0 <= i < |shards| && Is(PartAt(shards, i, id), Confirmed) ==>
      Is(PartAt(shards', i, id), Confirmed)
    ensures Warranted(c, shards', known, m)
  {
  }

  lemma DeliveryKeepsShards(c: Config, s: System, m: Message)
    requires ShardsOk(c, s.shards) && m.index < |s.shards| && Act(s.shards[m.index], c.route, m.index, m.event).Ok?
    ensures ShardsOk(c, s.shards[m.index := Act(s.shards[m.index], c.route, m.index, m.event).value.state])
  {
    hide Sound, Moved;
    var t := Act(s.shards[m.index], c.route, m.index, m.event).value.state;
    ActKeepsSound(s.shards[m.index], c.route, m.index, m.event);
    ActKeepsAccounts(s.shards[m.index], c.route, m.index, m.event);
  }

  lemma ActKeepsAccounts(s: Shard, route: Route, index: nat, e: Event)
    requires Act(s, route, index, e).Ok?
    ensures Act(s, route, index, e).value.state.accounts.Keys == s.accounts.Keys
  {
  }

  lemma DeliveryKeepsInv(c: Config, s: System, m: Message)
    requires Inv(c, s) && Next(c, s, Deliver(m)).Some?
    ensures Inv(c, Next(c, s, Deliver(m)).value)
  {
    hide Project, Act, Coherent, Warranted, ShardsOk, Sound;
    var t := Next(c, s, Deliver(m)).value;
    var book := Project(s.log).value;
    var e := m.event;
    ActDelivers(s.shards[m.index], c.route, m.index, e);
    DeliveryKeepsShards(c, s, m);
    forall id ensures Coherent(c, t.shards, Known(t), book, id) {
      if id == e.intent.id {
        DeliveryKeepsCoherent(c, s, m, t.shards, book);
      } else {
        DeliveryKeepsOthers(c, s, t.shards, Known(s), book, id);
      }
    }
    forall i, id | 0 <= i < |s.shards| && Is(PartAt(s.shards, i, id), Confirmed)
      ensures Is(PartAt(t.shards, i, id), Confirmed)
    {
    }
    forall x | x in t.sent ensures Warranted(c, t.shards, Known(t), x) {
      DeliveryKeepsWarranted(c, s.shards, t.shards, Known(s), x);
    }
    DeliveryKeepsWorker(c, s, t, m);
  }

  lemma DeliveryKeepsWorker(c: Config, s: System, t: System, m: Message)
    requires m.index < |s.shards| && Act(s.shards[m.index], c.route, m.index, m.event).Ok? && Project(s.log).Some?
    requires t == s.(shards := s.shards[m.index := Act(s.shards[m.index], c.route, m.index, m.event).value.state])
    requires WorkerOk(c, s, Project(s.log).value)
    ensures WorkerOk(c, t, Project(t.log).value)
  {
    hide Project, Act;
    forall i, id | 0 <= i < |s.shards| ensures Since(PartAt(s.shards, i, id), PartAt(t.shards, i, id)) {
      if i == m.index && id in s.shards[i].parts { StatusMovesForward(s.shards[i], c.route, i, m.event, id); }
    }
    if !s.worker.Idle? && s.worker.id in Project(s.log).value {
      var b := Project(s.log).value[s.worker.id].body;
      if SourceShard(c, b) < |s.shards| {
        assert Since(PartAt(s.shards, SourceShard(c, b), b.id), PartAt(t.shards, SourceShard(c, b), b.id));
      }
      if TargetShard(c, b) < |s.shards| {
        assert Since(PartAt(s.shards, TargetShard(c, b), b.id), PartAt(t.shards, TargetShard(c, b), b.id));
      }
    }
  }

  /** While the worker is busy the whole journal is replicated. */
  lemma WorkerKnowsAll(c: Config, s: System)
    requires JournalOk(s) && s.committed == |s.log|
    ensures Known(s) == Project(s.log).value
  {
    assert s.log[..s.committed] == s.log;
  }

  lemma CreateKeepsInv(c: Config, s: System, b: Intent)
    requires Inv(c, s) && Next(c, s, Create(b)).Some?
    ensures Inv(c, Next(c, s, Create(b)).value)
  {
    hide Project, Warranted, ShardsOk;
    var book := Project(s.log).value;
    WorkerKnowsAll(c, s);
    assert Coherent(c, s.shards, Known(s), book, b.id);
    assert Owned(c, s.shards, Known(s), b.id);
    assert Coherent(c, s.shards, book, book[b.id := Transfer(b, None, None)], b.id);
    NotedKeepsInv(c, s, Accepted(b));
  }

  /** Selecting cancellation of an undecided cross-shard transfer is always coherent. */
  lemma CancelKeepsInv(c: Config, s: System, id: string)
    requires Inv(c, s) && s.committed == |s.log| && id in Project(s.log).value
      && Cancellable(c, Project(s.log).value[id])
    ensures Inv(c, Noted(s, Decided(id, false)))
  {
    hide Project, Warranted, ShardsOk;
    var book := Project(s.log).value;
    WorkerKnowsAll(c, s);
    assert Coherent(c, s.shards, Known(s), book, id);
    assert Coherent(c, s.shards, book, book[id := book[id].(decision := Some(false))], id);
    NotedKeepsInv(c, s, Decided(id, false));
  }

  /** COMMIT is decided only while both participants are prepared, not merely when they were read, and deciding it keeps
      the invariant. */
  lemma CommitKeepsInv(c: Config, s: System, id: string)
    requires Inv(c, s) && s.worker.Read? && s.worker.id == id
    requires Project(s.log).value[id].decision.None? && Is(s.worker.left, Prepared) && Is(s.worker.right, Prepared)
    ensures var b := Project(s.log).value[id].body;
      Is(PartAt(s.shards, SourceShard(c, b), id), Prepared) && Is(PartAt(s.shards, TargetShard(c, b), id), Prepared)
    ensures Inv(c, Noted(s, Decided(id, true)))
  {
    hide Project, Warranted, ShardsOk;
    var book := Project(s.log).value;
    WorkerKnowsAll(c, s);
    assert Coherent(c, s.shards, Known(s), book, id);
    assert Coherent(c, s.shards, book, book[id := book[id].(decision := Some(true))], id);
    NotedKeepsInv(c, s, Decided(id, true));
  }

  /** Completion is journaled only once both participants have settled as decided. */
  lemma CompleteKeepsInv(c: Config, s: System, id: string, outcome: Outcome)
    requires Inv(c, s) && s.worker.Read? && s.worker.id == id && !outcome.Declined?
    requires var t := Project(s.log).value[id]; var status := if outcome.Succeeded? then Confirmed else Canceled;
      t.decision == Some(outcome.Succeeded?) && Is(s.worker.left, status) && Is(s.worker.right, status)
    ensures Inv(c, Noted(s, Completed(id, outcome)))
  {
    hide Project, Warranted, ShardsOk;
    var book := Project(s.log).value;
    WorkerKnowsAll(c, s);
    assert Coherent(c, s.shards, Known(s), book, id);
    assert Coherent(c, s.shards, book, book[id := book[id].(outcome := Some(outcome))], id);
    NotedKeepsInv(c, s, Completed(id, outcome));
  }

  lemma CompleteLocalKeepsInv(c: Config, s: System, id: string)
    requires Inv(c, s) && s.worker.HalfRead? && s.worker.id == id && s.worker.left.Some?
      && !Cross(c, Project(s.log).value[id].body)
    ensures Inv(c, Noted(s, Completed(id, if Is(s.worker.left, Confirmed) then Succeeded else Declined)))
  {
    hide Project, Warranted, ShardsOk;
    var book := Project(s.log).value;
    var outcome := if Is(s.worker.left, Confirmed) then Succeeded else Declined;
    WorkerKnowsAll(c, s);
    assert Coherent(c, s.shards, Known(s), book, id);
    assert Coherent(c, s.shards, book, book[id := book[id].(outcome := Some(outcome))], id);
    NotedKeepsInv(c, s, Completed(id, outcome));
  }

  /** The commands the worker sends are warranted by what it has read. */
  lemma WorkerSends(c: Config, s: System, kind: Kind, role: Role)
    requires ConfigOk(c) && Inv(c, s) && (s.worker.HalfRead? || s.worker.Read?)
    requires var t := Project(s.log).value[s.worker.id];
      match role
      case Local => !Cross(c, t.body) && kind.Move?
      case Source =>
        && Cross(c, t.body) && !kind.Move?
        && (kind.Confirm? ==> t.decision == Some(true)) && (kind.Cancel? ==> t.decision == Some(false))
      case Destination =>
        && Cross(c, t.body) && !kind.Move?
        && (kind.Confirm? ==> t.decision == Some(true) && Is(s.worker.left, Confirmed))
        && (kind.Cancel? ==> t.decision == Some(false))
    ensures var b := Project(s.log).value[s.worker.id].body;
      Inv(c, Sending(s, if role.Destination? then TargetShard(c, b) else SourceShard(c, b), kind, role, b))
  {
    hide Project, Sound;
    var b := Project(s.log).value[s.worker.id].body;
    WorkerKnowsAll(c, s);
    assert Coherent(c, s.shards, Known(s), Project(s.log).value, s.worker.id);
    SendingKeepsInv(c, s,
        Message(if role.Destination? then TargetShard(c, b) else SourceShard(c, b), Event(kind, role, b)));
  }

  lemma ProceedKeepsInv(c: Config, s: System)
    requires ConfigOk(c) && Inv(c, s) && Next(c, s, Proceed).Some?
    ensures Inv(c, Next(c, s, Proceed).value)
  {
    hide Inv, Noted, Sending, Project;
    var id := s.worker.id;
    WorkerFacts(c, s);
    var t := Project(s.log).value[id];
    if s.worker.HalfRead? && !Cross(c, t.body) {
      if s.worker.left.None? { WorkerSends(c, s, Move, Local); } else { CompleteLocalKeepsInv(c, s, id); }
    } else {
      match t.decision {
        case None =>
          if Refused(s.worker.left) || Refused(s.worker.right) { CancelKeepsInv(c, s, id); }
          else if s.worker.left.None? { WorkerSends(c, s, Prepare, Source); }
          else if s.worker.right.None? { WorkerSends(c, s, Prepare, Destination); }
          else if Is(s.worker.left, Prepared) && Is(s.worker.right, Prepared) { CommitKeepsInv(c, s, id); }
          else { IdleKeepsInv(c, s); }
        case Some(commit) =>
          var status := if commit then Confirmed else Canceled;
          if !Is(s.worker.left, status) { WorkerSends(c, s, if commit then Confirm else Cancel, Source); }
          else if !Is(s.worker.right, status) { WorkerSends(c, s, if commit then Confirm else Cancel, Destination); }
          else { CompleteKeepsInv(c, s, id, if commit then Succeeded else Withdrawn); }
      }
    }
  }

  lemma WorkerFacts(c: Config, s: System)
    requires Inv(c, s) && !s.worker.Idle?
    ensures Project(s.log).Some? && s.committed == |s.log| && s.worker.id in Project(s.log).value
    ensures var t := Project(s.log).value[s.worker.id];
      t.outcome.None? && t.body.id == s.worker.id && (s.worker.Read? ==> Cross(c, t.body))
  {
    hide Project;
    assert Coherent(c, s.shards, Known(s), Project(s.log).value, s.worker.id);
  }

  lemma IdleKeepsInv(c: Config, s: System)
    requires Inv(c, s)
    ensures Inv(c, s.(worker := Idle))
  {
    hide Project;
    WorkerKeepsInv(c, s, Idle);
  }

  lemma ReadKeepsInv(c: Config, s: System, e: Step)
    requires Inv(c, s) && (e.Begin? || e.ReadLeft? || e.ReadRight?) && Next(c, s, e).Some?
    ensures Inv(c, Next(c, s, e).value)
  {
    hide Project, ShardsOk, Warranted;
    var t := Next(c, s, e).value;
    if !e.Begin? { WorkerFacts(c, s); }
    WorkerKeepsInv(c, s, t.worker);
  }

  /** Every step of every actor keeps the invariant. */
  lemma NextKeepsInv(c: Config, s: System, e: Step)
    requires ConfigOk(c) && Inv(c, s) && Next(c, s, e).Some?
    ensures Inv(c, Next(c, s, e).value)
  {
    hide Inv, Project, Act, Advance, AdvanceLocal, Noted;
    match e {
      case Create(b) => CreateKeepsInv(c, s, b);
      case Sync => SyncKeepsInv(c, s);
      case Begin(_) => ReadKeepsInv(c, s, e);
      case ReadLeft => ReadKeepsInv(c, s, e);
      case ReadRight => ReadKeepsInv(c, s, e);
      case Proceed => ProceedKeepsInv(c, s);
      case GiveUp => IdleKeepsInv(c, s);
      case Refuse => WorkerFacts(c, s); CancelKeepsInv(c, s, s.worker.id);
      case Withdraw(id) => CancelKeepsInv(c, s, id);
      case Deliver(m) => DeliveryKeepsInv(c, s, m);
    }
  }

  lemma InitInv(c: Config)
    requires ConfigOk(c)
    ensures Inv(c, Init(c))
  {
    var s := Init(c);
    assert s.log[..0] == [];
    forall i | 0 <= i < |s.shards| ensures Sound(s.shards[i]) { assert s.shards[i] == Genesis(Opening(c, i)); }
  }

  lemma {:induction false} RunKeepsInv(c: Config, steps: seq<Step>)
    requires ConfigOk(c) && Run(c, steps).Some?
    ensures Inv(c, Run(c, steps).value)
  {
    hide Inv, Next, Init;
    if steps == [] {
      InitInv(c);
    } else {
      RunKeepsInv(c, steps[..|steps| - 1]);
      NextKeepsInv(c, Run(c, steps[..|steps| - 1]).value, steps[|steps| - 1]);
    }
  }

  lemma {:induction false} RunFromKeepsInv(c: Config, s: System, steps: seq<Step>)
    requires ConfigOk(c) && Inv(c, s) && RunFrom(c, s, steps).Some?
    ensures Inv(c, RunFrom(c, s, steps).value)
    decreases |steps|
  {
    hide Inv, Next, ConfigOk;
    if steps != [] {
      NextKeepsInv(c, s, steps[0]);
      RunFromKeepsInv(c, Next(c, s, steps[0]).value, steps[1..]);
    }
  }
}
