/** What each event does to each account, told from the balances before it, and what an account's balance tells about
    its transfers over any run. */
module WalletEffects {
  import opened Wrappers
  import opened Sums
  import opened WalletShard
  import opened Transfers
  import opened TransferSafety

  // ---------------------------------------------------------------- one event

  /** The event left this record, touched no other and kept the set of accounts. */
  ghost predicate Records(s: Shard, t: Shard, e: Event, status: Status) {
    && t.parts == s.parts[e.intent.id := Part(e.intent, e.role, status)] && t.accounts.Keys == s.accounts.Keys
    && t.ids == if e.intent.id in s.parts then s.ids else s.ids + [e.intent.id]
  }

  /** Exactly one account changed, by these amounts. */
  ghost predicate OnlyChanges(s: Shard, t: Shard, account: string, available: int, held: int) {
    && account in s.accounts && t.accounts.Keys == s.accounts.Keys
    && t.accounts[account] == Balance(s.accounts[account].available + available, s.accounts[account].held + held)
    && forall a :: a in s.accounts && a != account ==> t.accounts[a] == s.accounts[a]
  }

  predicate CanPay(s: Shard, b: Intent) {
    b.source in s.accounts && s.accounts[b.source].available >= b.amount
  }

  /** A local transfer is confirmed if and only if both accounts exist and the source can pay; then the amount goes from
      one to the other and nothing else changes. Otherwise it is rejected and no balance changes. */
  lemma MoveIsExact(s: Shard, e: Event)
    requires e.kind.Move? && Reduce(s, e).Some?
    ensures var t, b := Reduce(s, e).value, e.intent;
      if CanPay(s, b) && b.destination in s.accounts then
        && Records(s, t, e, Confirmed) && b.source != b.destination
        && t.accounts[b.source] == Balance(s.accounts[b.source].available - b.amount, s.accounts[b.source].held)
        && t.accounts[b.destination]
           == Balance(s.accounts[b.destination].available + b.amount, s.accounts[b.destination].held)
        && forall a :: a in s.accounts && a != b.source && a != b.destination ==> t.accounts[a] == s.accounts[a]
      else Records(s, t, e, Rejected) && t.accounts == s.accounts
  {
  }

  /** A source is prepared if and only if it can pay, and then the amount is held; a destination if and only if it
      exists. A rejection changes no balance. */
  lemma PrepareIsExact(s: Shard, e: Event)
    requires e.kind.Prepare? && Reduce(s, e).Some?
    ensures var t, b := Reduce(s, e).value, e.intent;
      if e.role.Source? then
        if CanPay(s, b) then Records(s, t, e, Prepared) && OnlyChanges(s, t, b.source, -b.amount, b.amount)
        else Records(s, t, e, Rejected) && t.accounts == s.accounts
      else
        && t.accounts == s.accounts
        && Records(s, t, e, if b.destination in s.accounts then Prepared else Rejected)
  {
  }

  /** A confirmed source gives up what it held; a confirmed destination receives the amount. */
  lemma ConfirmIsExact(s: Shard, e: Event)
    requires e.kind.Confirm? && Reduce(s, e).Some?
    ensures var t, b := Reduce(s, e).value, e.intent;
      && Records(s, t, e, Confirmed)
      && if e.role.Source? then OnlyChanges(s, t, b.source, 0, -b.amount)
         else OnlyChanges(s, t, b.destination, b.amount, 0)
  {
  }

  /** Cancelling a prepared source gives back what it held; any other cancellation changes no balance. */
  lemma CancelIsExact(s: Shard, e: Event)
    requires e.kind.Cancel? && Reduce(s, e).Some?
    ensures var t, b := Reduce(s, e).value, e.intent;
      && Records(s, t, e, Canceled)
      && if e.role.Source? && b.id in s.parts && s.parts[b.id].status.Prepared?
         then OnlyChanges(s, t, b.source, b.amount, -b.amount) else t.accounts == s.accounts
  {
  }

  // ---------------------------------------------------------------- when an action is refused

  lemma FirstCommandReduces(s: Shard, e: Event)
    requires Sound(s) && e.intent.Valid() && e.intent.id !in s.parts && (e.kind.Move? <==> e.role.Local?)
    requires !e.kind.Confirm?
    ensures Reduce(s, e).Some?
  {
    hide HeldFor;
  }

  /** A participant refuses a malformed command, one for another shard, one that contradicts its record, a confirmation
      without a prepared record and a cancellation of a confirmed one; everything else it accepts. */
  lemma ActRefusesIff(s: Shard, route: Route, index: nat, e: Event)
    requires Sound(s)
    ensures var id := e.intent.id;
      Act(s, route, index, e).Err? <==>
        || !e.intent.Valid() || (e.kind.Move? <==> !e.role.Local?) || !Routed(route, index, e)
        || (id in s.parts && (s.parts[id].intent != e.intent || s.parts[id].role != e.role))
        || (e.kind.Confirm? && (id in s.parts ==> s.parts[id].status.Rejected? || s.parts[id].status.Canceled?))
        || (e.kind.Cancel? && id in s.parts && s.parts[id].status.Confirmed?)
  {
    hide Reduce, Sound;
    if e.intent.Valid() && e.intent.id !in s.parts && (e.kind.Move? <==> e.role.Local?) && !e.kind.Confirm? {
      FirstCommandReduces(s, e);
    }
    if Admits(s, e) && e.intent.Valid() && (e.kind.Confirm? || e.kind.Cancel?) { SettlementNeverFails(s, e); }
  }

  // ---------------------------------------------------------------- balances over runs

  /** What a record has brought an account. */
  function Brought(p: Part, a: string): int {
    if !p.status.Confirmed? then 0
    else
      (if !p.role.Source? && p.intent.destination == a then p.intent.amount else 0)
      - (if !p.role.Destination? && p.intent.source == a then p.intent.amount else 0)
  }

  function BroughtBy(parts: map<string, Part>, a: string): string -> int {
    (id: string) => if id in parts then Brought(parts[id], a) else 0
  }

  /** Confirmed incoming minus confirmed outgoing amounts of one account. */
  function Net(s: Shard, a: string): int { Total(s.ids, BroughtBy(s.parts, a)) }

  lemma NetChanges(s: Shard, e: Event, a: string)
    requires Listed(s) && Reduce(s, e).Some?
    ensures var t, id := Reduce(s, e).value, e.intent.id;
      Net(t, a) == Net(s, a) + BroughtBy(t.parts, a)(id) - BroughtBy(s.parts, a)(id)
  {
    hide Moved, Resulting, Admits, Brought;
    var t, id := Reduce(s, e).value, e.intent.id;
    var f, g := BroughtBy(s.parts, a), BroughtBy(t.parts, a);
    assert forall x :: x != id ==> f(x) == g(x);
    if id in s.parts {
      OneChanges(s.ids, f, g, id);
    } else {
      SameTotal(s.ids, f, g);
      TotalAppend(s.ids, id, g);
    }
  }

  /** Every event changes what an account owns by exactly what its record brings it. */
  lemma ReduceKeepsAccount(s: Shard, e: Event, a: string)
    requires Listed(s) && Reduce(s, e).Some? && a in s.accounts
    ensures var t := Reduce(s, e).value;
      a in t.accounts && Worth(t.accounts, a) - Net(t, a) == Worth(s.accounts, a) - Net(s, a)
  {
    hide Reduce, Net;
    NetChanges(s, e, a);
    AdmittedRecord(s, e);
    match e.kind {
      case Move => MoveIsExact(s, e);
      case Prepare => PrepareIsExact(s, e);
      case Confirm => ConfirmIsExact(s, e);
      case Cancel => CancelIsExact(s, e);
    }
  }

  lemma AdmittedRecord(s: Shard, e: Event)
    requires Reduce(s, e).Some?
    ensures Admits(s, e) && e.intent.Valid()
  {
  }

  /** Each account owns its opening balance, plus its confirmed incoming and minus its confirmed outgoing transfers. */
  ghost predicate Accounted(c: Config, shards: seq<Shard>) {
    forall i, a :: 0 <= i < |shards| && a in shards[i].accounts ==>
      a in c.opening && Worth(shards[i].accounts, a) == c.opening[a] + Net(shards[i], a)
  }

  lemma DeliveryKeepsAccounted(c: Config, s: System, m: Message)
    requires Inv(c, s) && Accounted(c, s.shards) && Next(c, s, Deliver(m)).Some?
    ensures Accounted(c, Next(c, s, Deliver(m)).value.shards)
  {
    hide Project, Coherent, Warranted, WorkerOk, Reduce, Net;
    var t := Next(c, s, Deliver(m)).value;
    var before := s.shards[m.index];
    assert Sound(before);
    ActKeepsAccounts(before, c.route, m.index, m.event);
    forall i, a | 0 <= i < |t.shards| && a in t.shards[i].accounts
      ensures a in c.opening && Worth(t.shards[i].accounts, a) == c.opening[a] + Net(t.shards[i], a)
    {
      if i == m.index && Reduce(before, m.event) == Some(t.shards[i]) { ReduceKeepsAccount(before, m.event, a); }
    }
  }

  /** In every reachable state, mid-transfer states included, the balance of every account, held money included, is
      exactly its opening balance plus confirmed incoming minus confirmed outgoing amounts, and what it holds is what
      its prepared outgoing transfers reserve. */
  lemma {:induction false} BalancesTellTransfers(c: Config, steps: seq<Step>)
    requires ConfigOk(c) && Run(c, steps).Some?
    ensures Accounted(c, Run(c, steps).value.shards)
    ensures forall i, a :: 0 <= i < |Run(c, steps).value.shards| && a in Run(c, steps).value.shards[i].accounts ==>
      var shard := Run(c, steps).value.shards[i]; shard.accounts[a].held == HeldFor(shard, a)
  {
    hide Inv, Next, Init, Accounted;
    RunKeepsInv(c, steps);
    HoldsAreExact(c, Run(c, steps).value);
    if steps == [] {
      InitIsAccounted(c);
    } else {
      var front := steps[..|steps| - 1];
      BalancesTellTransfers(c, front);
      RunKeepsInv(c, front);
      NextKeepsAccounted(c, Run(c, front).value, steps[|steps| - 1]);
    }
  }

  lemma HoldsAreExact(c: Config, s: System)
    requires Inv(c, s)
    ensures forall i, a :: 0 <= i < |s.shards| && a in s.shards[i].accounts ==>
      s.shards[i].accounts[a].held == HeldFor(s.shards[i], a)
  {
    hide JournalOk, Coherent, Warranted, WorkerOk, HeldFor;
    forall i, a | 0 <= i < |s.shards| && a in s.shards[i].accounts
      ensures s.shards[i].accounts[a].held == HeldFor(s.shards[i], a)
    {
      assert Sound(s.shards[i]);
    }
  }

  lemma InitIsAccounted(c: Config)
    requires ConfigOk(c)
    ensures Accounted(c, Init(c).shards)
  {
    forall i, a | 0 <= i < |Init(c).shards| && a in Init(c).shards[i].accounts
      ensures a in c.opening && Worth(Init(c).shards[i].accounts, a) == c.opening[a] + Net(Init(c).shards[i], a)
    {
      assert Init(c).shards[i] == Genesis(Opening(c, i));
    }
  }

  lemma NextKeepsAccounted(c: Config, s: System, e: Step)
    requires Inv(c, s) && Accounted(c, s.shards) && Next(c, s, e).Some?
    ensures Accounted(c, Next(c, s, e).value.shards)
  {
    hide Inv, Accounted, Project, Act;
    if e.Deliver? { DeliveryKeepsAccounted(c, s, e.message); }
  }
}
