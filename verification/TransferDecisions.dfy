/** Which outcome a transfer gets: cancelled only when refused or called off, committed when both are prepared, and
    successful whenever the money is there. */
module TransferDecisions {
  import opened Wrappers
  import opened WalletShard
  import opened Transfers
  import opened TransferSafety
  import opened WalletEffects
  import opened TransferProgress

  // ---------------------------------------------------------------- CANCEL needs a reason

  /** No administrator cancels and no participant error selects cancellation. */
  predicate NotCalledOff(steps: seq<Step>) {
    forall e :: e in steps ==> !e.Withdraw? && !e.Refuse?
  }

  /** Every cancelled transfer was refused by a participant. */
  ghost predicate CancelsAreRefusals(c: Config, s: System) {
    && Project(s.log).Some?
    && var book := Project(s.log).value;
      forall id :: id in book && book[id].decision == Some(false) ==> AnyRefused(c, s, book[id].body)
  }

  lemma RefusalStays(c: Config, s: System, e: Step, i: nat, id: string)
    requires Next(c, s, e).Some? && Refused(PartAt(s.shards, i, id))
    ensures Refused(PartAt(Next(c, s, e).value.shards, i, id))
  {
    hide Next;
    NextRefuses(c, s, e, i, id);
  }

  lemma NextRefuses(c: Config, s: System, e: Step, i: nat, id: string)
    requires Next(c, s, e).Some?
    ensures Since(PartAt(s.shards, i, id), PartAt(Next(c, s, e).value.shards, i, id))
  {
    hide Project, Act;
    if e.Deliver? && i == e.message.index && i < |s.shards| && id in s.shards[i].parts {
      StatusMovesForward(s.shards[i], c.route, i, e.message.event, id);
    }
  }

  /** A row that cancels is added only by a worker that has read a refusal, when nobody calls the transfer off. */
  lemma NewCancelHasRefusal(c: Config, s: System, e: Step)
    requires Inv(c, s) && Next(c, s, e).Some? && !e.Withdraw? && !e.Refuse?
    ensures var t := Next(c, s, e).value;
      || t.log == s.log
      || (|t.log| == |s.log| + 1 && t.log[..|s.log|] == s.log
          && (t.log[|s.log|].Decided? && !t.log[|s.log|].commit ==>
                && t.log[|s.log|].id in Project(s.log).value && t.shards == s.shards
                && AnyRefused(c, s, Project(s.log).value[t.log[|s.log|].id].body)))
  {
    hide Project, Act, Coherent, Warranted, ShardsOk;
    if e.Proceed? { WorkerFacts(c, s); }
  }

  lemma NextKeepsRefusals(c: Config, s: System, e: Step)
    requires Inv(c, s) && CancelsAreRefusals(c, s) && Next(c, s, e).Some? && !e.Withdraw? && !e.Refuse?
    requires Project(Next(c, s, e).value.log).Some?
    ensures CancelsAreRefusals(c, Next(c, s, e).value)
  {
    hide Inv, Next, Project, Refused;
    var t := Next(c, s, e).value;
    NewCancelHasRefusal(c, s, e);
    if t.log != s.log {
      var f := t.log[|s.log|];
      assert t.log == s.log + [f];
      ProjectAppend(s.log, f);
    }
    forall id | id in Project(t.log).value && Project(t.log).value[id].decision == Some(false)
      ensures AnyRefused(c, t, Project(t.log).value[id].body)
    {
      var b := Project(t.log).value[id].body;
      if AnyRefused(c, s, b) {
        if Refused(PartAt(s.shards, SourceShard(c, b), b.id)) { RefusalStays(c, s, e, SourceShard(c, b), b.id); }
        if Refused(PartAt(s.shards, TargetShard(c, b), b.id)) { RefusalStays(c, s, e, TargetShard(c, b), b.id); }
      }
    }
  }

  lemma {:induction false} RunKeepsRefusals(c: Config, steps: seq<Step>)
    requires ConfigOk(c) && Run(c, steps).Some? && NotCalledOff(steps)
    ensures CancelsAreRefusals(c, Run(c, steps).value)
  {
    hide Inv, Next;
    if steps != [] {
      var front := steps[..|steps| - 1];
      RunKeepsRefusals(c, front);
      RunKeepsInv(c, front);
      RunKeepsInv(c, steps);
      ReplaysAlways(c, Run(c, steps).value);
      NextKeepsRefusals(c, Run(c, front).value, steps[|steps| - 1]);
    }
  }

  lemma ReplaysAlways(c: Config, s: System)
    requires Inv(c, s)
    ensures Project(s.log).Some?
  {
  }

  lemma {:induction false} RowIsDecision(log: seq<Fact>, id: string, commit: bool)
    requires Project(log).Some? && Decided(id, commit) in log
    ensures id in Project(log).value && Project(log).value[id].decision == Some(commit)
  {
    var front, f := log[..|log| - 1], log[|log| - 1];
    assert log == front + [f];
    if Decided(id, commit) in front {
      RowIsDecision(front, id, commit);
      ApplyGrows(Project(front).value, f);
    }
  }

  /** In every run in which nobody calls a transfer off, a journaled CANCEL means that one of its participants has
      rejected it or carries the tombstone of that rejection. */
  lemma CancelNeedsRefusal(c: Config, steps: seq<Step>, id: string)
    requires ConfigOk(c) && Run(c, steps).Some? && NotCalledOff(steps) && Decided(id, false) in Run(c, steps).value.log
    ensures var s := Run(c, steps).value;
      && Project(s.log).Some? && id in Project(s.log).value
      && var b := Project(s.log).value[id].body;
         Refused(PartAt(s.shards, SourceShard(c, b), b.id)) || Refused(PartAt(s.shards, TargetShard(c, b), b.id))
  {
    hide Project, Run, Refused;
    RunKeepsRefusals(c, steps);
    RowIsDecision(Run(c, steps).value.log, id, false);
  }

  // ---------------------------------------------------------------- COMMIT

  /** A worker that has read both participants of an undecided transfer decides: COMMIT when both are prepared, CANCEL
      when one has refused. */
  lemma ReadingDecides(c: Config, past: seq<Step>, id: string)
    requires ConfigOk(c) && Run(c, past).Some? && Run(c, past).value.worker.Read? && Run(c, past).value.worker.id == id
    ensures var s := Run(c, past).value;
      && Project(s.log).Some? && id in Project(s.log).value
      && (Project(s.log).value[id].decision.None? ==>
            && (Is(s.worker.left, Prepared) && Is(s.worker.right, Prepared) ==>
                  Next(c, s, Proceed).Some? && Next(c, s, Proceed).value.log == s.log + [Decided(id, true)])
            && (Refused(s.worker.left) || Refused(s.worker.right) ==>
                  Next(c, s, Proceed).Some? && Next(c, s, Proceed).value.log == s.log + [Decided(id, false)]))
  {
    hide Project, Run, Coherent, Warranted, ShardsOk;
    RunKeepsInv(c, past);
    WorkerFacts(c, Run(c, past).value);
  }

  /** A pending transfer whose two participants are prepared succeeds. */
  lemma PreparedSucceeds(c: Config, s: System, id: string) returns (steps: seq<Step>, u: System)
    requires ConfigOk(c) && PendingCross(c, s, id) && Project(s.log).value[id].decision.None?
    requires var b := Project(s.log).value[id].body;
      Is(PartAt(s.shards, SourceShard(c, b), b.id), Prepared) && Is(PartAt(s.shards, TargetShard(c, b), b.id), Prepared)
    ensures RunFrom(c, s, steps) == Some(u) && Unattended(steps) && Inv(c, u) && id in Project(u.log).value
    ensures Project(u.log).value[id].outcome == Some(Succeeded)
  {
    hide Project, Coherent, Warranted, ShardsOk, WorkerOk, Next;
    var v := JournalDecision(c, s, id);
    var rest;
    rest, u := Drive(c, v, id);
    var first := [Begin(id), ReadLeft, ReadRight] + [Proceed, Sync];
    RunFromTwice(c, s, first, rest);
    steps := first + rest;
  }

  /** Nothing stands against the transfer: no participant has refused, and a source that has not answered can pay. */
  ghost predicate Promising(c: Config, s: System, b: Intent) {
    var left, right := PartAt(s.shards, SourceShard(c, b), b.id), PartAt(s.shards, TargetShard(c, b), b.id);
    && (if left.Some? then Is(left, Prepared)
        else SourceShard(c, b) < |s.shards| && CanPay(s.shards[SourceShard(c, b)], b))
    && (right.Some? ==> Is(right, Prepared))
  }

  lemma AccountsThere(c: Config, s: System, id: string)
    requires ConfigOk(c) && Pending(c, s, id)
    ensures var b := Project(s.log).value[id].body;
      && b.id == id && b.Valid() && SourceShard(c, b) < |s.shards| && TargetShard(c, b) < |s.shards|
      && b.source in s.shards[SourceShard(c, b)].accounts && b.destination in s.shards[TargetShard(c, b)].accounts
  {
    hide Project, CrossOk, LocalOk, Warranted, WorkerOk, Sound;
    assert Coherent(c, s.shards, Known(s), Project(s.log).value, id);
  }

  /** A first Prepare is answered by its own kind of test alone. */
  lemma FirstPrepare(s: Shard, route: Route, index: nat, e: Event)
    requires e.kind.Prepare? && e.intent.id !in s.parts && Act(s, route, index, e).Ok?
    requires if e.role.Source? then CanPay(s, e.intent) else e.intent.destination in s.accounts
    ensures var t := Act(s, route, index, e).value.state; var id := e.intent.id;
      id in t.parts && t.parts[id].status.Prepared?
  {
    hide Moved;
  }

  lemma AskingKeepsPromise(c: Config, s: System, id: string) returns (u: System)
    requires ConfigOk(c) && PendingCross(c, s, id) && Project(s.log).value[id].decision.None?
    requires Promising(c, s, Project(s.log).value[id].body) && Silent(c, s, Project(s.log).value[id].body) > 0
    ensures PendingCross(c, u, id) && u.log == s.log && Promising(c, u, Project(s.log).value[id].body)
    ensures var b := Project(s.log).value[id].body;
      && Silent(c, u, b) < Silent(c, s, b)
      && RunFrom(c, s, [Begin(id), ReadLeft, ReadRight] + [Proceed, Deliver(Unasked(c, s, b))]) == Some(u)
  {
    hide Project, Coherent, Warranted, ShardsOk, WorkerOk, Next, RunFrom, Act;
    var b := Project(s.log).value[id].body;
    u := AskOne(c, s, id);
    var m := Unasked(c, s, b);
    AccountsThere(c, s, id);
    FirstPrepare(s.shards[m.index], c.route, m.index, m.event);
    assert forall i :: 0 <= i < |s.shards| && i != m.index ==> PartAt(u.shards, i, b.id) == PartAt(s.shards, i, b.id);
  }

  lemma {:induction false} PromiseIsKept(c: Config, s: System, id: string) returns (steps: seq<Step>, u: System)
    requires ConfigOk(c) && PendingCross(c, s, id) && Project(s.log).value[id].decision.None?
    requires Promising(c, s, Project(s.log).value[id].body)
    ensures RunFrom(c, s, steps) == Some(u) && Unattended(steps) && Inv(c, u) && id in Project(u.log).value
    ensures Project(u.log).value[id].outcome == Some(Succeeded)
    decreases Silent(c, s, Project(s.log).value[id].body)
  {
    hide Project, Coherent, Warranted, ShardsOk, WorkerOk, Next;
    var b := Project(s.log).value[id].body;
    if Silent(c, s, b) == 0 {
      steps, u := PreparedSucceeds(c, s, id);
    } else {
      var first := [Begin(id), ReadLeft, ReadRight] + [Proceed, Deliver(Unasked(c, s, b))];
      var v := AskingKeepsPromise(c, s, id);
      var rest;
      rest, u := PromiseIsKept(c, v, id);
      RunFromTwice(c, s, first, rest);
      steps := first + rest;
    }
  }

  /** Giving up the current step and acknowledging the journal changes no record and no decision. */
  lemma Settle(c: Config, past: seq<Step>) returns (synced: System)
    requires ConfigOk(c) && Run(c, past).Some?
    ensures var s := Run(c, past).value;
      && RunFrom(c, s, [GiveUp, Sync]) == Some(synced) && Inv(c, synced) && Synced(synced)
      && synced.log == s.log && synced.shards == s.shards && Project(s.log).Some?
  {
    hide Project, Coherent, Warranted, ShardsOk, WorkerOk, Run, Act;
    var s := Run(c, past).value;
    RunKeepsInv(c, past);
    var idle := s.(worker := Idle);
    synced := idle.(committed := |s.log|);
    assert Next(c, s, GiveUp) == Some(idle) && Next(c, idle, Sync) == Some(synced);
    TwoSteps(c, s, GiveUp, Sync, idle, synced);
    NextKeepsInv(c, s, GiveUp);
    NextKeepsInv(c, idle, Sync);
  }

  /** From any reachable state an undecided transfer between two shards that no participant has refused, and whose
      source is prepared or can pay, can be brought to success by the worker's own steps and arriving commands. */
  lemma SolventTransfersSucceed(c: Config, past: seq<Step>, id: string) returns (steps: seq<Step>, u: System)
    requires ConfigOk(c) && Run(c, past).Some? && Project(Run(c, past).value.log).Some?
    requires var s := Run(c, past).value; var book := Project(s.log).value;
      && id in book && book[id].outcome.None? && book[id].decision.None? && Cross(c, book[id].body)
      && Promising(c, s, book[id].body)
    ensures RunFrom(c, Run(c, past).value, steps) == Some(u) && Unattended(steps)
    ensures Project(u.log).Some? && id in Project(u.log).value && Project(u.log).value[id].outcome == Some(Succeeded)
  {
    hide Project, Coherent, Warranted, ShardsOk, WorkerOk, Run, Next;
    var synced := Settle(c, past);
    var rest;
    rest, u := PromiseIsKept(c, synced, id);
    RunFromTwice(c, Run(c, past).value, [GiveUp, Sync], rest);
    steps := [GiveUp, Sync] + rest;
  }

  /** A transfer within one shard, not yet carried out, succeeds exactly when the source can pay. */
  lemma LocalTransfersFollowFunds(c: Config, past: seq<Step>, id: string) returns (steps: seq<Step>, u: System)
    requires ConfigOk(c) && Run(c, past).Some? && Project(Run(c, past).value.log).Some?
    requires var s := Run(c, past).value; var book := Project(s.log).value;
      && id in book && book[id].outcome.None? && !Cross(c, book[id].body)
      && PartAt(s.shards, SourceShard(c, book[id].body), id).None? && SourceShard(c, book[id].body) < |s.shards|
    ensures var s := Run(c, past).value;
      && RunFrom(c, s, steps) == Some(u) && Unattended(steps) && Project(u.log).Some? && id in Project(u.log).value
      && var b := Project(s.log).value[id].body;
         Project(u.log).value[id].outcome
           == Some(if CanPay(s.shards[SourceShard(c, b)], b) then Succeeded else Declined)
  {
    hide Project, Coherent, Warranted, ShardsOk, WorkerOk, Run, Next, Act;
    var s := Run(c, past).value;
    var synced := Settle(c, past);
    var b := Project(s.log).value[id].body;
    var first, v := MoveOnce(c, synced, id);
    AccountsThere(c, synced, id);
    FirstMove(s.shards[SourceShard(c, b)], c.route, SourceShard(c, b), Event(Move, Local, b));
    var rest;
    rest, u := JournalLocal(c, v, id);
    RunFromTwice(c, s, [GiveUp, Sync], first);
    RunFromTwice(c, s, [GiveUp, Sync] + first, rest);
    steps := [GiveUp, Sync] + first + rest;
  }

  lemma FirstMove(s: Shard, route: Route, index: nat, e: Event)
    requires e.kind.Move? && e.intent.id !in s.parts && Act(s, route, index, e).Ok?
      && e.intent.destination in s.accounts
    ensures var t := Act(s, route, index, e).value.state; var id := e.intent.id;
      id in t.parts && t.parts[id].status == if CanPay(s, e.intent) then Confirmed else Rejected
  {
    hide Moved;
  }

  /** An administrator can cancel any undecided transfer between two shards, and it ends cancelled. */
  lemma WithdrawnTransfersEnd(c: Config, past: seq<Step>, id: string) returns (steps: seq<Step>, u: System)
    requires ConfigOk(c) && Run(c, past).Some? && Project(Run(c, past).value.log).Some?
    requires var book := Project(Run(c, past).value.log).value; id in book && Cancellable(c, book[id])
    ensures var s := Run(c, past).value;
      && RunFrom(c, s, [GiveUp, Sync, Withdraw(id), Sync] + steps) == Some(u) && Unattended(steps)
      && Project(u.log).Some? && id in Project(u.log).value && Project(u.log).value[id].outcome == Some(Withdrawn)
  {
    hide Project, Coherent, Warranted, ShardsOk, WorkerOk, Run, Act;
    var s := Run(c, past).value;
    var synced := Settle(c, past);
    BookIdentity(c, synced, id);
    var noted := Noted(synced, Decided(id, false));
    var known := noted.(committed := |noted.log|);
    ProjectAppend(synced.log, Decided(id, false));
    assert Next(c, synced, Withdraw(id)) == Some(noted) && Next(c, noted, Sync) == Some(known);
    TwoSteps(c, synced, Withdraw(id), Sync, noted, known);
    NextKeepsInv(c, synced, Withdraw(id));
    NextKeepsInv(c, noted, Sync);
    steps, u := Drive(c, known, id);
    RunFromTwice(c, synced, [Withdraw(id), Sync], steps);
    RunFromTwice(c, s, [GiveUp, Sync], [Withdraw(id), Sync] + steps);
    assert [GiveUp, Sync] + ([Withdraw(id), Sync] + steps) == [GiveUp, Sync, Withdraw(id), Sync] + steps;
  }

  // ---------------------------------------------------------------- a new transfer

  /** A client's transfer is taken exactly when the journal is acknowledged, the intent is well-formed between known
      accounts, its identifier is new and the history is not full; it is then pending, and nothing else changes. */
  lemma CreateRecords(c: Config, past: seq<Step>, b: Intent)
    requires ConfigOk(c) && Run(c, past).Some?
    ensures var s := Run(c, past).value; Project(s.log).Some? && var book := Project(s.log).value;
      && (Next(c, s, Create(b)).Some? <==>
            Synced(s) && b.Valid() && b.source in c.names && b.destination in c.names && b.id !in book && |book| < 1000)
      && (Next(c, s, Create(b)).Some? ==>
            var t := Next(c, s, Create(b)).value;
            && t == s.(log := s.log + [Accepted(b)]) && Project(t.log).Some?
            && Project(t.log).value == book[b.id := Transfer(b, None, None)])
  {
    hide Project, Run, Coherent, Warranted, ShardsOk, WorkerOk;
    var s := Run(c, past).value;
    RunKeepsInv(c, past);
    ProjectAppend(s.log, Accepted(b));
  }
}
