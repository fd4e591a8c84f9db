/** Records only move forward: settled ones stay as they are, and an accepted command may arrive again at any time. */
module TransferFinality {
  import opened Wrappers
  import opened WalletShard
  import opened Transfers
  import opened TransferSafety

  lemma SinceTwice(a: Option<Part>, b: Option<Part>, c: Option<Part>)
    requires Since(a, b) && Since(b, c)
    ensures Since(a, c)
  {
  }

  /** One step moves every record forward and loses no command in flight. */
  lemma NextMovesForward(c: Config, s: System, e: Step, i: nat, id: string)
    requires Next(c, s, e).Some?
    ensures var t := Next(c, s, e).value;
      |t.shards| == |s.shards| && s.sent <= t.sent && Since(PartAt(s.shards, i, id), PartAt(t.shards, i, id))
  {
    hide Project, Act;
    if e.Deliver? && i == e.message.index && i < |s.shards| && id in s.shards[i].parts {
      StatusMovesForward(s.shards[i], c.route, i, e.message.event, id);
    }
  }

  /** So does every run. */
  lemma {:induction false} RunMovesForward(c: Config, s: System, steps: seq<Step>, i: nat, id: string)
    requires RunFrom(c, s, steps).Some?
    ensures var t := RunFrom(c, s, steps).value;
      |t.shards| == |s.shards| && s.sent <= t.sent && Since(PartAt(s.shards, i, id), PartAt(t.shards, i, id))
    decreases |steps|
  {
    hide Next, Later;
    if steps == [] {
      StaysItself(PartAt(s.shards, i, id));
    } else {
      var t := Next(c, s, steps[0]).value;
      NextMovesForward(c, s, steps[0], i, id);
      RunMovesForward(c, t, steps[1..], i, id);
      SinceTwice(PartAt(s.shards, i, id), PartAt(t.shards, i, id), PartAt(RunFrom(c, s, steps).value.shards, i, id));
    }
  }

  lemma StaysItself(p: Option<Part>)
    ensures Since(p, p)
  {
  }

  predicate Settled(p: Option<Part>) { Is(p, Confirmed) || Is(p, Canceled) }

  /** A command that asks for the other outcome. */
  predicate Opposes(e: Event, p: Option<Part>) {
    (Is(p, Canceled) && e.kind.Confirm?) || (Is(p, Confirmed) && e.kind.Cancel?)
  }

  /** Whatever happens after a record is settled, it stays the record it is and no command for it changes anything
      any more: a late Try after a tombstone creates no hold, a Confirm after a cancellation is refused, and so is a
      Cancel after a confirmation. */
  lemma SettledForever(c: Config, past: seq<Step>, future: seq<Step>, i: nat, id: string)
    requires ConfigOk(c) && Run(c, past).Some? && RunFrom(c, Run(c, past).value, future).Some?
    requires Settled(PartAt(Run(c, past).value.shards, i, id))
    ensures var s := Run(c, past).value; var t := RunFrom(c, s, future).value; var p := PartAt(s.shards, i, id);
      && i < |t.shards| && PartAt(t.shards, i, id) == p
      && (forall a :: a in t.shards[i].accounts ==> t.shards[i].accounts[a].held == HeldFor(t.shards[i], a))
      && (forall a :: Hold(t.shards[i].parts, id, a) == 0)
      && (forall m: Message :: m.index == i && m.event.intent.id == id ==>
            Next(c, t, Deliver(m)) == None || Next(c, t, Deliver(m)) == Some(t))
      && (forall m: Message :: m.index == i && m.event.intent.id == id && Opposes(m.event, p) ==>
            Next(c, t, Deliver(m)) == None)
  {
    hide Project, Act, Run, Coherent, Warranted, WorkerOk, HeldFor;
    var s := Run(c, past).value;
    var t := RunFrom(c, s, future).value;
    RunKeepsInv(c, past);
    RunFromKeepsInv(c, s, future);
    RunMovesForward(c, s, future, i, id);
    assert Sound(t.shards[i]);
    forall m: Message | m.index == i && m.event.intent.id == id
      ensures Next(c, t, Deliver(m)) == None || Next(c, t, Deliver(m)) == Some(t)
      ensures Opposes(m.event, PartAt(s.shards, i, id)) ==> Next(c, t, Deliver(m)) == None
    {
      SettledAnswers(t.shards[i], c.route, i, m.event);
      SameShards(t, i);
    }
  }

  lemma SameShards(s: System, i: nat)
    requires i < |s.shards|
    ensures s.(shards := s.shards[i := s.shards[i]]) == s
  {
    assert s.shards[i := s.shards[i]] == s.shards;
  }

  /** A command once accepted may arrive again at any later moment of any run: it is accepted and changes nothing at
      all. */
  lemma DeliveryIsIdempotentForever(c: Config, past: seq<Step>, m: Message, future: seq<Step>)
    requires ConfigOk(c) && Run(c, past).Some? && Next(c, Run(c, past).value, Deliver(m)).Some?
    requires RunFrom(c, Next(c, Run(c, past).value, Deliver(m)).value, future).Some?
    ensures var u := RunFrom(c, Next(c, Run(c, past).value, Deliver(m)).value, future).value;
      Next(c, u, Deliver(m)) == Some(u)
  {
    hide Project, Act, Run, Routed, Coherent, Warranted, WorkerOk, ShardsOk;
    var s := Run(c, past).value;
    var t := Next(c, s, Deliver(m)).value;
    var u := RunFrom(c, t, future).value;
    var id := m.event.intent.id;
    RunKeepsInv(c, past);
    NextKeepsInv(c, s, Deliver(m));
    RunFromKeepsInv(c, t, future);
    RunMovesForward(c, t, future, m.index, id);
    AcceptedRepeats(s.shards[m.index], c.route, m.index, m.event);
    assert Repeats(PartAt(t.shards, m.index, id), m.event);
    assert Repeats(PartAt(u.shards, m.index, id), m.event);
    RepetitionAnswers(u.shards[m.index], c.route, m.index, m.event);
    SameShards(u, m.index);
  }
}
