/** The audit as it really reads: one shard after another, and then each of them again, while late commands arrive.
    It holds the coordinator's lock, so nothing but arrivals happens in between. */
module StaggeredAudit {
  import opened Wrappers
  import opened Sorting
  import opened WalletShard
  import opened Transfers
  import opened TransferSafety
  import opened WalletAudit

  /** The system after these commands have arrived, in this order. */
  function Arrived(c: Config, s: System, ms: seq<Message>): Option<System> {
    if ms == [] then Some(s)
    else
      match Arrived(c, s, ms[..|ms| - 1])
      case None => None
      case Some(t) => Next(c, t, Deliver(ms[|ms| - 1]))
  }

  lemma {:induction false} ArrivedBefore(c: Config, s: System, ms: seq<Message>, n: nat)
    requires Arrived(c, s, ms).Some? && n <= |ms|
    ensures Arrived(c, s, ms[..n]).Some?
    decreases |ms|
  {
    if n == |ms| {
      assert ms[..n] == ms;
    } else {
      ArrivedBefore(c, s, ms[..|ms| - 1], n);
      assert ms[..|ms| - 1][..n] == ms[..n];
    }
  }

  /** Arrivals touch the shards only. */
  lemma {:induction false} ArrivalsTouchShards(c: Config, s: System, ms: seq<Message>)
    requires Arrived(c, s, ms).Some?
    ensures var t := Arrived(c, s, ms).value; t == s.(shards := t.shards) && |t.shards| == |s.shards|
  {
    hide Project, Act;
    if ms != [] { ArrivalsTouchShards(c, s, ms[..|ms| - 1]); }
  }

  /** A run of arrivals keeps the invariant and conserves the money. */
  lemma {:induction false} ArrivalsKeep(c: Config, s: System, ms: seq<Message>)
    requires ConfigOk(c) && Inv(c, s) && Conserved(c, s) && Arrived(c, s, ms).Some?
    ensures Inv(c, Arrived(c, s, ms).value) && Conserved(c, Arrived(c, s, ms).value)
  {
    hide Inv, Conserved, Next, ConfigOk;
    if ms != [] {
      var front := ms[..|ms| - 1];
      ArrivalsKeep(c, s, front);
      NextKeepsInv(c, Arrived(c, s, front).value, Deliver(ms[|ms| - 1]));
      NextConserves(c, Arrived(c, s, front).value, Deliver(ms[|ms| - 1]));
    }
  }

  /** Shard `i` after the first `n` arrivals, or after all of them. */
  function ShardAt(c: Config, s: System, ms: seq<Message>, i: nat, n: nat): Shard
    requires Arrived(c, s, ms).Some? && i < |s.shards|
  {
    ArrivedBefore(c, s, ms, Min(n, |ms|));
    ArrivalsTouchShards(c, s, ms[..Min(n, |ms|)]);
    Arrived(c, s, ms[..Min(n, |ms|)]).value.shards[i]
  }

  /** What the audit reads when it reads shard `i` after `at[i]` arrivals. */
  function Views(c: Config, s: System, ms: seq<Message>, at: seq<nat>): seq<Shard>
    requires Arrived(c, s, ms).Some? && |at| == |s.shards|
  {
    seq(|at|, i requires 0 <= i < |at| => ShardAt(c, s, ms, i, at[i]))
  }

  /** The arrivals at each shard before that shard was read. */
  function Read(ms: seq<Message>, at: seq<nat>): seq<Message> {
    if ms == [] then []
    else
      var n, m := |ms| - 1, ms[|ms| - 1];
      Read(ms[..n], at) + if m.index < |at| && n < at[m.index] then [m] else []
  }

  lemma LastArrival(c: Config, s: System, ms: seq<Message>)
    requires ms != [] && Arrived(c, s, ms).Some?
    ensures var m := ms[|ms| - 1]; var t := Arrived(c, s, ms[..|ms| - 1]).value;
      && Arrived(c, s, ms[..|ms| - 1]).Some? && m in s.sent && Project(s.log).Some?
         && m.index < |s.shards| == |t.shards|
      && Act(t.shards[m.index], c.route, m.index, m.event).Ok?
      && Arrived(c, s, ms).value
         == t.(shards := t.shards[m.index := Act(t.shards[m.index], c.route, m.index, m.event).value.state])
  {
    hide Project, Act;
    ArrivalsTouchShards(c, s, ms[..|ms| - 1]);
  }

  /** Shards at a moment before the last arrival do not depend on it; other shards never do. */
  lemma ShardBeforeLast(c: Config, s: System, ms: seq<Message>, i: nat, n: nat)
    requires ms != [] && Arrived(c, s, ms).Some? && Arrived(c, s, ms[..|ms| - 1]).Some? && i < |s.shards|
    requires n < |ms| || i != ms[|ms| - 1].index
    ensures ShardAt(c, s, ms, i, n) == ShardAt(c, s, ms[..|ms| - 1], i, n)
  {
    hide Project, Act;
    var front := ms[..|ms| - 1];
    if n < |ms| {
      assert ms[..Min(n, |ms|)] == front[..Min(n, |front|)];
    } else {
      LastArrival(c, s, ms);
      assert ms[..|ms|] == ms && front[..|front|] == front;
    }
  }

  lemma ShardAtEnd(c: Config, s: System, ms: seq<Message>, i: nat, n: nat)
    requires Arrived(c, s, ms).Some? && i < |s.shards| && n >= |ms|
    ensures |Arrived(c, s, ms).value.shards| == |s.shards|
      && ShardAt(c, s, ms, i, n) == Arrived(c, s, ms).value.shards[i]
  {
    hide Next;
    ArrivalsTouchShards(c, s, ms);
    assert ms[..|ms|] == ms;
  }

  /** Arrivals at different shards do not meet: leaving out those a staggered reading missed gives a run that ends in
      exactly the shards it read. */
  lemma {:induction false} ReadIsArrived(c: Config, s: System, ms: seq<Message>, at: seq<nat>)
    requires Arrived(c, s, ms).Some? && |at| == |s.shards|
    ensures Arrived(c, s, Read(ms, at)).Some? && Arrived(c, s, Read(ms, at)).value.shards == Views(c, s, ms, at)
  {
    hide Next, ShardAt;
    if ms == [] {
      forall i | 0 <= i < |at| ensures s.shards[i] == ShardAt(c, s, ms, i, at[i]) { ShardAtEnd(c, s, ms, i, at[i]); }
      assert s.shards == Views(c, s, ms, at);
    } else {
      var front, m := ms[..|ms| - 1], ms[|ms| - 1];
      LastArrival(c, s, ms);
      ReadIsArrived(c, s, front, at);
      var t := Arrived(c, s, Read(front, at)).value;
      ArrivalsTouchShards(c, s, Read(front, at));
      forall i | 0 <= i < |at| && (i != m.index || at[i] < |ms|) ensures ShardAt(c, s, ms, i, at[i]) == t.shards[i] {
        ShardBeforeLast(c, s, ms, i, at[i]);
      }
      if at[m.index] >= |ms| {
        ShardAtEnd(c, s, front, m.index, at[m.index]);
        ShardAtEnd(c, s, ms, m.index, at[m.index]);
        ArrivalsTouchShards(c, s, front);
        assert t.shards[m.index] == Arrived(c, s, front).value.shards[m.index];
        SameArrival(c, t, Arrived(c, s, front).value, m);
        assert Read(ms, at)[..|Read(front, at)|] == Read(front, at);
        assert Arrived(c, s, Read(ms, at)).value.shards == Views(c, s, ms, at);
      } else {
        assert Read(ms, at) == Read(front, at);
        assert t.shards == Views(c, s, ms, at);
      }
    }
  }

  /** A command meets only its own shard. */
  lemma SameArrival(c: Config, s: System, t: System, m: Message)
    requires Next(c, t, Deliver(m)).Some? && t == s.(shards := t.shards)
    requires m.index < |s.shards| == |t.shards| && s.shards[m.index] == t.shards[m.index]
    ensures Next(c, s, Deliver(m)).Some?
    ensures Next(c, s, Deliver(m)).value
      == s.(shards := s.shards[m.index := Next(c, t, Deliver(m)).value.shards[m.index]])
  {
    hide Project, Act;
  }

  // ---------------------------------------------------------------- reading every shard twice

  /** Events the first `n` arrivals appended to shard `i`'s log. */
  function Appended(c: Config, s: System, ms: seq<Message>, i: nat, n: nat): nat
    requires Arrived(c, s, ms).Some? && i < |s.shards| && n <= |ms|
  {
    if n == 0 then 0
    else Appended(c, s, ms, i, n - 1) + if Appends(c, s, ms, i, n - 1) then 1 else 0
  }

  /** What the audit reports as a participant that changed: its second reading counts more events. */
  predicate Grew(c: Config, s: System, ms: seq<Message>, i: nat, at: nat, again: nat)
    requires Arrived(c, s, ms).Some? && i < |s.shards| && at <= again <= |ms|
  {
    Appended(c, s, ms, i, again) != Appended(c, s, ms, i, at)
  }

  /** The arrival after the first `n` appends to shard `i`. */
  predicate Appends(c: Config, s: System, ms: seq<Message>, i: nat, n: nat)
    requires Arrived(c, s, ms).Some? && i < |s.shards| && n < |ms|
  {
    ms[n].index == i && match Act(ShardAt(c, s, ms, i, n), c.route, i, ms[n].event)
      case Ok(d) => d.appended
      case Err(_) => false
  }

  /** How far a record has come. */
  function Progress(s: Shard, id: string): nat {
    if id !in s.parts then 0 else if s.parts[id].status.Prepared? || s.parts[id].status.Rejected? then 1 else 2
  }

  ghost predicate Forward(s: Shard, t: Shard) {
    forall id :: Progress(s, id) <= Progress(t, id)
  }

  /** An appended event takes its record a step further and none back; anything else changes nothing. */
  lemma ActProgresses(s: Shard, route: Route, index: nat, e: Event)
    requires Act(s, route, index, e).Ok?
    ensures var d := Act(s, route, index, e).value;
      Forward(s, d.state) && if d.appended then Progress(s, e.intent.id) < Progress(d.state, e.intent.id)
        else d.state == s
  {
    hide Moved;
  }

  lemma ArrivalAt(c: Config, s: System, ms: seq<Message>, i: nat, n: nat)
    requires Arrived(c, s, ms).Some? && i < |s.shards| && n < |ms|
    ensures var a, b := ShardAt(c, s, ms, i, n), ShardAt(c, s, ms, i, n + 1);
      && Forward(a, b)
      && if Appends(c, s, ms, i, n) then exists id :: Progress(a, id) < Progress(b, id) else a == b
  {
    hide Act, Progress;
    ArrivedBefore(c, s, ms, n + 1);
    var upTo := ms[..n + 1];
    assert upTo[..n] == ms[..n] && upTo[|upTo| - 1] == ms[n];
    LastArrival(c, s, upTo);
    var a := ShardAt(c, s, ms, i, n);
    if ms[n].index == i { ActProgresses(a, c.route, i, ms[n].event); }
  }

  /** Between two moments a shard is the same exactly when its log has not grown. */
  lemma {:induction false} SameIffNothingAppended(c: Config, s: System, ms: seq<Message>, i: nat, m: nat, n: nat)
    requires Arrived(c, s, ms).Some? && i < |s.shards| && m <= n <= |ms|
    ensures var a, b := ShardAt(c, s, ms, i, m), ShardAt(c, s, ms, i, n);
      && Forward(a, b) && Appended(c, s, ms, i, m) <= Appended(c, s, ms, i, n)
      && if Appended(c, s, ms, i, m) == Appended(c, s, ms, i, n) then a == b
         else exists id :: Progress(a, id) < Progress(b, id)
    decreases n
  {
    hide Act, Progress, ShardAt, Appends;
    if m < n {
      SameIffNothingAppended(c, s, ms, i, m, n - 1);
      ArrivalAt(c, s, ms, i, n - 1);
      var a, b, d := ShardAt(c, s, ms, i, m), ShardAt(c, s, ms, i, n - 1), ShardAt(c, s, ms, i, n);
      assert forall id :: Progress(a, id) <= Progress(b, id) <= Progress(d, id);
      if Appended(c, s, ms, i, m) < Appended(c, s, ms, i, n - 1) {
        var id :| Progress(a, id) < Progress(b, id);
        assert Progress(a, id) < Progress(d, id);
      } else if Appends(c, s, ms, i, n - 1) {
        var id :| Progress(b, id) < Progress(d, id);
        assert Progress(a, id) < Progress(d, id);
      }
    }
  }

  /** Every check but one holds of what a staggered audit reads, whenever each shard is read: the views are those of a
      state the system could have been in. The remaining one, that no shard's log has grown since it was read, tells
      exactly whether the shard has changed. */
  lemma StaggeredReadsPassAudit(c: Config, past: seq<Step>, ms: seq<Message>, at: seq<nat>, again: seq<nat>)
    requires ConfigOk(c) && Run(c, past).Some? && Synced(Run(c, past).value) && Arrived(c, Run(c, past).value, ms).Some?
    requires var s := Run(c, past).value;
      |at| == |again| == |s.shards| && forall i :: 0 <= i < |at| ==> at[i] <= again[i] <= |ms|
    ensures var s := Run(c, past).value;
      Project(s.log).Some? && AuditMatches(c, s.(shards := Views(c, s, ms, at)), Project(s.log).value)
    ensures var s := Run(c, past).value; forall i :: 0 <= i < |at| ==>
      (Grew(c, s, ms, i, at[i], again[i]) <==> ShardAt(c, s, ms, i, again[i]) != Views(c, s, ms, at)[i])
  {
    hide Run, Project, Coherent, Warranted, ShardsOk, WorkerOk, Conserved, AuditMatches, Next, ShardAt;
    var s := Run(c, past).value;
    RunKeepsInv(c, past);
    RunConserves(c, past);
    ReadIsArrived(c, s, ms, at);
    ArrivalsKeep(c, s, Read(ms, at));
    ArrivalsTouchShards(c, s, Read(ms, at));
    InvPassesAudit(c, Arrived(c, s, Read(ms, at)).value);
    forall i | 0 <= i < |at|
      ensures Grew(c, s, ms, i, at[i], again[i]) <==> ShardAt(c, s, ms, i, again[i]) != ShardAt(c, s, ms, i, at[i])
    {
      SameIffNothingAppended(c, s, ms, i, at[i], again[i]);
    }
  }
}
