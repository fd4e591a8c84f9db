/** Pending transfers can always be finished, by the worker's own steps and arriving commands alone. */
module TransferProgress {
  import opened Wrappers
  import opened WalletShard
  import opened Transfers
  import opened TransferSafety
  import opened WalletEffects

  /** Participants not yet settled as decided. */
  function Unsettled(c: Config, s: System, t: Transfer): nat
    requires t.decision.Some?
  {
    var status := if t.decision.value then Confirmed else Canceled;
    (if Is(PartAt(s.shards, SourceShard(c, t.body), t.body.id), status) then 0 else 1)
    + (if Is(PartAt(s.shards, TargetShard(c, t.body), t.body.id), status) then 0 else 1)
  }

  /** A pending transfer on a synced journal. */
  ghost predicate Pending(c: Config, s: System, id: string) {
    Inv(c, s) && Synced(s) && id in Project(s.log).value && Project(s.log).value[id].outcome.None?
  }

  /** One across two shards. */
  ghost predicate PendingCross(c: Config, s: System, id: string) {
    Pending(c, s, id) && Cross(c, Project(s.log).value[id].body)
  }

  /** One with a decision. */
  ghost predicate Drivable(c: Config, s: System, id: string) {
    PendingCross(c, s, id) && Project(s.log).value[id].decision.Some?
  }

  /** Steps that need no client, no administrator and no refused request. */
  predicate Unattended(steps: seq<Step>) {
    forall e :: e in steps ==> !e.Create? && !e.Withdraw? && !e.Refuse?
  }

  /** Reading both participants afresh. */
  lemma ReadBoth(c: Config, s: System, id: string)
    requires ConfigOk(c) && PendingCross(c, s, id)
    ensures var t := Project(s.log).value[id];
      var u := s.(worker :=
          Read(id, PartAt(s.shards, SourceShard(c, t.body), id), PartAt(s.shards, TargetShard(c, t.body), id)));
      RunFrom(c, s, [Begin(id), ReadLeft, ReadRight]) == Some(u) && Inv(c, u)
  {
    hide Project, Warranted, ShardsOk, CrossOk, Act;
    var t := Project(s.log).value[id];
    WorkerKnowsAll(c, s);
    assert Coherent(c, s.shards, Known(s), Project(s.log).value, id) && Owned(c, s.shards, Known(s), id);
    var left, right := PartAt(s.shards, SourceShard(c, t.body), id), PartAt(s.shards, TargetShard(c, t.body), id);
    assert Receipt(left, t.body, Source) && Receipt(right, t.body, Destination);
    var s1 := s.(worker := Started(id));
    var s2 := s.(worker := HalfRead(id, left));
    var s3 := s.(worker := Read(id, left, right));
    assert Next(c, s, Begin(id)) == Some(s1) && Next(c, s1, ReadLeft) == Some(s2) && Next(c, s2, ReadRight) == Some(s3);
    ThreeSteps(c, s, Begin(id), ReadLeft, ReadRight, s1, s2, s3);
    NextKeepsInv(c, s, Begin(id));
    NextKeepsInv(c, s1, ReadLeft);
    NextKeepsInv(c, s2, ReadRight);
  }

  lemma ThreeSteps(c: Config, s: System, e1: Step, e2: Step, e3: Step, s1: System, s2: System, s3: System)
    requires Next(c, s, e1) == Some(s1) && Next(c, s1, e2) == Some(s2) && Next(c, s2, e3) == Some(s3)
    ensures RunFrom(c, s, [e1, e2, e3]) == Some(s3)
  {
    hide Next;
    assert [e1, e2, e3][1..] == [e2, e3] && [e2, e3][1..] == [e3] && [e3][1..] == [];
    assert RunFrom(c, s2, [e3]) == Some(s3);
    assert RunFrom(c, s1, [e2, e3]) == Some(s3);
  }

  lemma TwoSteps(c: Config, s: System, e1: Step, e2: Step, s1: System, s2: System)
    requires Next(c, s, e1) == Some(s1) && Next(c, s1, e2) == Some(s2)
    ensures RunFrom(c, s, [e1, e2]) == Some(s2)
  {
    hide Next;
    assert [e1, e2][1..] == [e2] && [e2][1..] == [];
    assert RunFrom(c, s1, [e2]) == Some(s2);
  }

  /** A warranted confirmation or cancellation is never refused. */
  lemma SettlementIsAccepted(c: Config, s: System, m: Message)
    requires Inv(c, s) && Warranted(c, s.shards, Known(s), m) && (m.event.kind.Confirm? || m.event.kind.Cancel?)
    ensures Act(s.shards[m.index], c.route, m.index, m.event).Ok?
  {
    hide Project, Reduce, Sound;
    var id := m.event.intent.id;
    assert Coherent(c, s.shards, Known(s), Project(s.log).value, id) && Owned(c, s.shards, Known(s), id);
    var shard := s.shards[m.index];
    assert Sound(shard);
    assert PartAt(s.shards, m.index, id) == if id in shard.parts then Some(shard.parts[id]) else None;
    if Admits(shard, m.event) { SettlementNeverFails(shard, m.event); }
  }

  /** The participant that settles next. */
  function Nearest(c: Config, s: System, t: Transfer): Message
    requires t.decision.Some?
  {
    var status := if t.decision.value then Confirmed else Canceled;
    var kind := if t.decision.value then Confirm else Cancel;
    if !Is(PartAt(s.shards, SourceShard(c, t.body), t.body.id), status)
      then Message(SourceShard(c, t.body), Event(kind, Source, t.body))
    else Message(TargetShard(c, t.body), Event(kind, Destination, t.body))
  }

  /** While a participant is unsettled, one more worker step and its delivery settle it. */
  lemma SettleOne(c: Config, s: System, id: string) returns (u: System)
    requires ConfigOk(c) && Drivable(c, s, id) && Unsettled(c, s, Project(s.log).value[id]) > 0
    ensures Drivable(c, u, id) && u.log == s.log
      && Unsettled(c, u, Project(s.log).value[id]) < Unsettled(c, s, Project(s.log).value[id])
    ensures RunFrom(c, s, [Begin(id), ReadLeft, ReadRight]
        + [Proceed, Deliver(Nearest(c, s, Project(s.log).value[id]))]) == Some(u)
  {
    hide Project, Coherent, Warranted, ShardsOk, Act, WorkerOk;
    var t := Project(s.log).value[id];
    var m := Nearest(c, s, t);
    var read := s.(worker :=
        Read(id, PartAt(s.shards, SourceShard(c, t.body), id), PartAt(s.shards, TargetShard(c, t.body), id)));
    ReadBoth(c, s, id);
    BookIdentity(c, s, id);
    var sent := s.(sent := s.sent + {m}, worker := Idle);
    assert Next(c, read, Proceed) == Some(sent);
    NextKeepsInv(c, read, Proceed);
    SettlementIsAccepted(c, sent, m);
    WarrantedIndex(c, sent.shards, Known(sent), m);
    u := sent.(shards := sent.shards[m.index := Act(sent.shards[m.index], c.route, m.index, m.event).value.state]);
    assert Next(c, sent, Deliver(m)) == Some(u);
    NextKeepsInv(c, sent, Deliver(m));
    TwoSteps(c, read, Proceed, Deliver(m), sent, u);
    RunFromTwice(c, s, [Begin(id), ReadLeft, ReadRight], [Proceed, Deliver(m)]);
    ActDelivers(sent.shards[m.index], c.route, m.index, m.event);
  }

  lemma WarrantedIndex(c: Config, shards: seq<Shard>, known: Book, m: Message)
    requires Warranted(c, shards, known, m)
    ensures m.index < |shards|
  {
  }

  lemma BookIdentity(c: Config, s: System, id: string)
    requires Inv(c, s) && id in Project(s.log).value
    ensures Project(s.log).value[id].body.id == id
    ensures Project(s.log).value[id].decision.Some? ==> Cross(c, Project(s.log).value[id].body)
  {
    hide Project;
    assert Coherent(c, s.shards, Known(s), Project(s.log).value, id);
  }

  /** Once both participants have settled, the worker's next step journals the outcome. */
  lemma JournalOutcome(c: Config, s: System, id: string) returns (u: System)
    requires ConfigOk(c) && Drivable(c, s, id) && Unsettled(c, s, Project(s.log).value[id]) == 0
    ensures Inv(c, u) && id in Project(u.log).value
    ensures Project(u.log).value[id].outcome
      == Some(if Project(s.log).value[id].decision.value then Succeeded else Withdrawn)
    ensures RunFrom(c, s, [Begin(id), ReadLeft, ReadRight] + [Proceed, Sync]) == Some(u)
  {
    hide Project, Coherent, Warranted, ShardsOk, WorkerOk;
    var t := Project(s.log).value[id];
    var f := Completed(id, if t.decision.value then Succeeded else Withdrawn);
    var read := s.(worker :=
        Read(id, PartAt(s.shards, SourceShard(c, t.body), id), PartAt(s.shards, TargetShard(c, t.body), id)));
    ReadBoth(c, s, id);
    BookIdentity(c, s, id);
    var noted := Noted(read, f);
    assert Next(c, read, Proceed) == Some(noted);
    NextKeepsInv(c, read, Proceed);
    ProjectAppend(s.log, f);
    u := noted.(committed := |noted.log|);
    assert Next(c, noted, Sync) == Some(u);
    NextKeepsInv(c, noted, Sync);
    TwoSteps(c, read, Proceed, Sync, noted, u);
    RunFromTwice(c, s, [Begin(id), ReadLeft, ReadRight], [Proceed, Sync]);
  }

  lemma {:induction false} Drive(c: Config, s: System, id: string) returns (steps: seq<Step>, u: System)
    requires ConfigOk(c) && Drivable(c, s, id)
    ensures RunFrom(c, s, steps) == Some(u) && Unattended(steps) && Inv(c, u) && id in Project(u.log).value
    ensures Project(u.log).value[id].outcome
      == Some(if Project(s.log).value[id].decision.value then Succeeded else Withdrawn)
    decreases Unsettled(c, s, Project(s.log).value[id])
  {
    hide Project, Coherent, Warranted, WorkerOk, ShardsOk, Next, Unsettled;
    var t := Project(s.log).value[id];
    if Unsettled(c, s, t) == 0 {
      steps := [Begin(id), ReadLeft, ReadRight] + [Proceed, Sync];
      u := JournalOutcome(c, s, id);
    } else {
      var first := [Begin(id), ReadLeft, ReadRight] + [Proceed, Deliver(Nearest(c, s, t))];
      var v := SettleOne(c, s, id);
      var rest;
      rest, u := Drive(c, v, id);
      RunFromTwice(c, s, first, rest);
      steps := first + rest;
    }
  }

  // ---------------------------------------------------------------- reaching a decision

  /** A first command for a transfer is never refused: it is prepared, moved or rejected. */
  lemma FirstCommandIsAccepted(c: Config, s: System, m: Message)
    requires Inv(c, s) && Warranted(c, s.shards, Known(s), m) && (m.event.kind.Move? || m.event.kind.Prepare?)
    ensures Act(s.shards[m.index], c.route, m.index, m.event).Ok?
  {
    hide Project, Reduce, Sound;
    var id := m.event.intent.id;
    assert Coherent(c, s.shards, Known(s), Project(s.log).value, id) && Owned(c, s.shards, Known(s), id);
    var shard := s.shards[m.index];
    assert Sound(shard);
    if id !in shard.parts { FirstCommandReduces(shard, m.event); }
  }

  /** Participants that have not answered yet. */
  function Silent(c: Config, s: System, b: Intent): nat {
    (if PartAt(s.shards, SourceShard(c, b), b.id).None? then 1 else 0)
    + (if PartAt(s.shards, TargetShard(c, b), b.id).None? then 1 else 0)
  }

  /** The participant asked next. */
  function Unasked(c: Config, s: System, b: Intent): Message {
    if PartAt(s.shards, SourceShard(c, b), b.id).None? then Message(SourceShard(c, b), Event(Prepare, Source, b))
    else Message(TargetShard(c, b), Event(Prepare, Destination, b))
  }

  predicate AnyRefused(c: Config, s: System, b: Intent) {
    Refused(PartAt(s.shards, SourceShard(c, b), b.id)) || Refused(PartAt(s.shards, TargetShard(c, b), b.id))
  }

  /** While none has refused and one has not answered, one more worker step and its delivery get an answer. */
  lemma AskOne(c: Config, s: System, id: string) returns (u: System)
    requires ConfigOk(c) && PendingCross(c, s, id) && Project(s.log).value[id].decision.None?
    requires !AnyRefused(c, s, Project(s.log).value[id].body) && Silent(c, s, Project(s.log).value[id].body) > 0
    ensures PendingCross(c, u, id) && u.log == s.log
    ensures var b := Project(s.log).value[id].body;
      && Silent(c, u, b) < Silent(c, s, b)
      && RunFrom(c, s, [Begin(id), ReadLeft, ReadRight] + [Proceed, Deliver(Unasked(c, s, b))]) == Some(u)
    ensures var m := Unasked(c, s, Project(s.log).value[id].body);
      && m.index < |s.shards| && Act(s.shards[m.index], c.route, m.index, m.event).Ok?
      && u.shards == s.shards[m.index := Act(s.shards[m.index], c.route, m.index, m.event).value.state]
  {
    hide Project, Coherent, Warranted, ShardsOk, Act, WorkerOk;
    var t := Project(s.log).value[id];
    BookIdentity(c, s, id);
    var m := Unasked(c, s, t.body);
    var read := s.(worker :=
        Read(id, PartAt(s.shards, SourceShard(c, t.body), id), PartAt(s.shards, TargetShard(c, t.body), id)));
    ReadBoth(c, s, id);
    var sent := s.(sent := s.sent + {m}, worker := Idle);
    assert Next(c, read, Proceed) == Some(sent);
    NextKeepsInv(c, read, Proceed);
    FirstCommandIsAccepted(c, sent, m);
    WarrantedIndex(c, sent.shards, Known(sent), m);
    u := sent.(shards := sent.shards[m.index := Act(sent.shards[m.index], c.route, m.index, m.event).value.state]);
    assert Next(c, sent, Deliver(m)) == Some(u);
    NextKeepsInv(c, sent, Deliver(m));
    TwoSteps(c, read, Proceed, Deliver(m), sent, u);
    RunFromTwice(c, s, [Begin(id), ReadLeft, ReadRight], [Proceed, Deliver(m)]);
    ActDelivers(sent.shards[m.index], c.route, m.index, m.event);
  }

  /** Participants of an undecided transfer that have answered without refusing are prepared. */
  lemma AnsweredIsPrepared(c: Config, s: System, id: string)
    requires PendingCross(c, s, id) && Project(s.log).value[id].decision.None?
    ensures var b := Project(s.log).value[id].body; Silent(c, s, b) == 0 && !AnyRefused(c, s, b) ==>
      Is(PartAt(s.shards, SourceShard(c, b), b.id), Prepared) && Is(PartAt(s.shards, TargetShard(c, b), b.id), Prepared)
  {
    hide Project, Warranted, ShardsOk, WorkerOk;
    WorkerKnowsAll(c, s);
    assert Coherent(c, s.shards, Known(s), Project(s.log).value, id);
  }

  /** With a refusal, or both answers, the worker's next step journals a decision. */
  lemma JournalDecision(c: Config, s: System, id: string) returns (u: System)
    requires ConfigOk(c) && PendingCross(c, s, id) && Project(s.log).value[id].decision.None?
    requires var b := Project(s.log).value[id].body; AnyRefused(c, s, b) || Silent(c, s, b) == 0
    ensures Drivable(c, u, id) && RunFrom(c, s, [Begin(id), ReadLeft, ReadRight] + [Proceed, Sync]) == Some(u)
    ensures Project(u.log).value[id].decision == Some(!AnyRefused(c, s, Project(s.log).value[id].body))
  {
    hide Project, Coherent, Warranted, ShardsOk, WorkerOk;
    var t := Project(s.log).value[id];
    BookIdentity(c, s, id);
    AnsweredIsPrepared(c, s, id);
    var f := Decided(id, !AnyRefused(c, s, t.body));
    var read := s.(worker :=
        Read(id, PartAt(s.shards, SourceShard(c, t.body), id), PartAt(s.shards, TargetShard(c, t.body), id)));
    ReadBoth(c, s, id);
    var noted := Noted(read, f);
    assert Next(c, read, Proceed) == Some(noted);
    NextKeepsInv(c, read, Proceed);
    ProjectAppend(s.log, f);
    u := noted.(committed := |noted.log|);
    assert Next(c, noted, Sync) == Some(u);
    NextKeepsInv(c, noted, Sync);
    TwoSteps(c, read, Proceed, Sync, noted, u);
    RunFromTwice(c, s, [Begin(id), ReadLeft, ReadRight], [Proceed, Sync]);
  }

  lemma {:induction false} Decide(c: Config, s: System, id: string) returns (steps: seq<Step>, u: System)
    requires ConfigOk(c) && PendingCross(c, s, id) && Project(s.log).value[id].decision.None?
    ensures RunFrom(c, s, steps) == Some(u) && Unattended(steps) && Drivable(c, u, id)
    decreases Silent(c, s, Project(s.log).value[id].body)
  {
    hide Project, Coherent, Warranted, ShardsOk, WorkerOk, Next, Silent, AnyRefused;
    var b := Project(s.log).value[id].body;
    if AnyRefused(c, s, b) || Silent(c, s, b) == 0 {
      steps := [Begin(id), ReadLeft, ReadRight] + [Proceed, Sync];
      u := JournalDecision(c, s, id);
    } else {
      var first := [Begin(id), ReadLeft, ReadRight] + [Proceed, Deliver(Unasked(c, s, b))];
      var v := AskOne(c, s, id);
      var rest;
      rest, u := Decide(c, v, id);
      RunFromTwice(c, s, first, rest);
      steps := first + rest;
    }
  }

  // ---------------------------------------------------------------- local transfers

  /** Reading the one participant of a local transfer afresh. */
  lemma ReadLocal(c: Config, s: System, id: string)
    requires ConfigOk(c) && Pending(c, s, id) && !Cross(c, Project(s.log).value[id].body)
    ensures var b := Project(s.log).value[id].body;
      var u := s.(worker := HalfRead(id, PartAt(s.shards, SourceShard(c, b), id)));
      RunFrom(c, s, [Begin(id), ReadLeft]) == Some(u) && Inv(c, u)
  {
    hide Project, Warranted, ShardsOk, CrossOk, Act;
    var t := Project(s.log).value[id];
    WorkerKnowsAll(c, s);
    assert Coherent(c, s.shards, Known(s), Project(s.log).value, id) && Owned(c, s.shards, Known(s), id);
    var left := PartAt(s.shards, SourceShard(c, t.body), id);
    assert Receipt(left, t.body, Local);
    var s1 := s.(worker := Started(id));
    var s2 := s.(worker := HalfRead(id, left));
    assert Next(c, s, Begin(id)) == Some(s1) && Next(c, s1, ReadLeft) == Some(s2);
    TwoSteps(c, s, Begin(id), ReadLeft, s1, s2);
    NextKeepsInv(c, s, Begin(id));
    NextKeepsInv(c, s1, ReadLeft);
  }

  /** Sending the transfer to its shard and its arrival there. */
  lemma MoveOnce(c: Config, s: System, id: string) returns (steps: seq<Step>, u: System)
    requires ConfigOk(c) && Pending(c, s, id) && !Cross(c, Project(s.log).value[id].body)
    requires PartAt(s.shards, SourceShard(c, Project(s.log).value[id].body), id).None?
    ensures RunFrom(c, s, steps) == Some(u) && Unattended(steps) && Pending(c, u, id) && u.log == s.log
    ensures PartAt(u.shards, SourceShard(c, Project(s.log).value[id].body), id).Some?
    ensures var b := Project(s.log).value[id].body; var i := SourceShard(c, b);
      && i < |s.shards| && Act(s.shards[i], c.route, i, Event(Move, Local, b)).Ok?
      && u.shards == s.shards[i := Act(s.shards[i], c.route, i, Event(Move, Local, b)).value.state]
  {
    hide Project, Coherent, Warranted, ShardsOk, Act, WorkerOk;
    var b := Project(s.log).value[id].body;
    BookIdentity(c, s, id);
    var m := Message(SourceShard(c, b), Event(Move, Local, b));
    var read := s.(worker := HalfRead(id, None));
    ReadLocal(c, s, id);
    var sent := s.(sent := s.sent + {m}, worker := Idle);
    assert Next(c, read, Proceed) == Some(sent);
    NextKeepsInv(c, read, Proceed);
    FirstCommandIsAccepted(c, sent, m);
    WarrantedIndex(c, sent.shards, Known(sent), m);
    u := sent.(shards := sent.shards[m.index := Act(sent.shards[m.index], c.route, m.index, m.event).value.state]);
    assert Next(c, sent, Deliver(m)) == Some(u);
    NextKeepsInv(c, sent, Deliver(m));
    TwoSteps(c, read, Proceed, Deliver(m), sent, u);
    RunFromTwice(c, s, [Begin(id), ReadLeft], [Proceed, Deliver(m)]);
    ActDelivers(sent.shards[m.index], c.route, m.index, m.event);
    steps := [Begin(id), ReadLeft] + [Proceed, Deliver(m)];
  }

  /** Once the shard has answered, the worker's next step journals the outcome. */
  lemma JournalLocal(c: Config, s: System, id: string) returns (steps: seq<Step>, u: System)
    requires ConfigOk(c) && Pending(c, s, id) && !Cross(c, Project(s.log).value[id].body)
    requires PartAt(s.shards, SourceShard(c, Project(s.log).value[id].body), id).Some?
    ensures RunFrom(c, s, steps) == Some(u) && Unattended(steps) && Inv(c, u) && id in Project(u.log).value
    ensures var left := PartAt(s.shards, SourceShard(c, Project(s.log).value[id].body), id);
      Project(u.log).value[id].outcome == Some(if Is(left, Confirmed) then Succeeded else Declined)
  {
    hide Project, Coherent, Warranted, ShardsOk, WorkerOk;
    var t := Project(s.log).value[id];
    BookIdentity(c, s, id);
    var left := PartAt(s.shards, SourceShard(c, t.body), id);
    var f := Completed(id, if Is(left, Confirmed) then Succeeded else Declined);
    var read := s.(worker := HalfRead(id, left));
    ReadLocal(c, s, id);
    var noted := Noted(read, f);
    assert Next(c, read, Proceed) == Some(noted);
    NextKeepsInv(c, read, Proceed);
    ProjectAppend(s.log, f);
    u := noted;
    steps := [Begin(id), ReadLeft] + [Proceed];
    assert [Proceed][1..] == [];
    assert RunFrom(c, read, [Proceed]) == Some(noted);
    RunFromTwice(c, s, [Begin(id), ReadLeft], [Proceed]);
  }

  lemma FinishLocal(c: Config, s: System, id: string) returns (steps: seq<Step>, u: System)
    requires ConfigOk(c) && Pending(c, s, id) && !Cross(c, Project(s.log).value[id].body)
    ensures RunFrom(c, s, steps) == Some(u) && Unattended(steps) && Inv(c, u) && id in Project(u.log).value
    ensures Project(u.log).value[id].outcome.Some?
  {
    hide Project, Coherent, Warranted, ShardsOk, WorkerOk, Next;
    if PartAt(s.shards, SourceShard(c, Project(s.log).value[id].body), id).Some? {
      steps, u := JournalLocal(c, s, id);
    } else {
      var first, v := MoveOnce(c, s, id);
      var rest;
      rest, u := JournalLocal(c, v, id);
      RunFromTwice(c, s, first, rest);
      steps := first + rest;
    }
  }

  // ---------------------------------------------------------------- every pending transfer

  lemma FinishPending(c: Config, s: System, id: string) returns (steps: seq<Step>, u: System)
    requires ConfigOk(c) && Pending(c, s, id)
    ensures RunFrom(c, s, steps) == Some(u) && Unattended(steps) && Inv(c, u) && id in Project(u.log).value
    ensures Project(u.log).value[id].outcome.Some?
    ensures var d := Project(s.log).value[id].decision;
      d.Some? ==> Project(u.log).value[id].outcome == Some(if d.value then Succeeded else Withdrawn)
  {
    hide Project, Coherent, Warranted, ShardsOk, WorkerOk, Next;
    BookIdentity(c, s, id);
    if !Cross(c, Project(s.log).value[id].body) {
      steps, u := FinishLocal(c, s, id);
    } else if Project(s.log).value[id].decision.Some? {
      steps, u := Drive(c, s, id);
    } else {
      var first, v := Decide(c, s, id);
      var rest;
      rest, u := Drive(c, v, id);
      RunFromTwice(c, s, first, rest);
      steps := first + rest;
    }
  }

  /** From any reachable state, however its commands were lost or delayed, the worker's own steps and arriving commands
      can bring every pending transfer to an outcome, and a decided one to the outcome that was decided. */
  lemma PendingTransfersCanFinish(c: Config, past: seq<Step>, id: string) returns (steps: seq<Step>, u: System)
    requires ConfigOk(c) && Run(c, past).Some?
    requires Project(Run(c, past).value.log).Some? && id in Project(Run(c, past).value.log).value
    requires Project(Run(c, past).value.log).value[id].outcome.None?
    ensures var s := Run(c, past).value;
      && RunFrom(c, s, steps) == Some(u) && Unattended(steps) && Project(u.log).Some? && id in Project(u.log).value
      && Project(u.log).value[id].outcome.Some?
      && var d := Project(s.log).value[id].decision;
         d.Some? ==> Project(u.log).value[id].outcome == Some(if d.value then Succeeded else Withdrawn)
  {
    hide Project, Coherent, Warranted, ShardsOk, WorkerOk, Run, Act;
    var s := Run(c, past).value;
    RunKeepsInv(c, past);
    var idle := s.(worker := Idle);
    var synced := idle.(committed := |s.log|);
    assert Next(c, s, GiveUp) == Some(idle) && Next(c, idle, Sync) == Some(synced);
    TwoSteps(c, s, GiveUp, Sync, idle, synced);
    NextKeepsInv(c, s, GiveUp);
    NextKeepsInv(c, idle, Sync);
    var rest;
    rest, u := FinishPending(c, synced, id);
    RunFromTwice(c, s, [GiveUp, Sync], rest);
    steps := [GiveUp, Sync] + rest;
  }
}
