/** One wallet shard: balances, participant records and the event log they replay from. */
module WalletShard {
  import opened Wrappers
  import opened Sorting
  import opened Sums

  datatype Intent = Intent(id: string, source: string, destination: string, amount: int) {
    predicate Valid() { source != destination && 1 <= amount <= 100_000_000 }
  }

  datatype Role = Source | Destination | Local

  datatype Kind = Move | Prepare | Confirm | Cancel

  datatype Status = Prepared | Rejected | Confirmed | Canceled

  datatype Part = Part(intent: Intent, role: Role, status: Status)

  datatype Balance = Balance(available: int, held: int)

  datatype Event = Event(kind: Kind, role: Role, intent: Intent)

  /** A shard's projection; `ids` lists the participant records in the order they appeared. */
  datatype Shard = Shard(accounts: map<string, Balance>, parts: map<string, Part>, ids: seq<string>)

  /** The account a participant acts on. */
  function Account(role: Role, b: Intent): string { if role.Destination? then b.destination else b.source }

  function Shift(accounts: map<string, Balance>, a: string, available: int, held: int): (r: map<string, Balance>)
    requires a in accounts
    ensures r.Keys == accounts.Keys
  {
    accounts[a := Balance(accounts[a].available + available, accounts[a].held + held)]
  }

  predicate Able(accounts: map<string, Balance>, a: string, amount: int) {
    a in accounts && accounts[a].available >= amount
  }

  /** The balances after an event; None where the source raises. */
  function Moved(s: Shard, e: Event): Option<map<string, Balance>> {
    var b := e.intent;
    match e.kind
    case Move =>
      Some(if Able(s.accounts, b.source, b.amount) && b.destination in s.accounts
           then Shift(Shift(s.accounts, b.source, -b.amount, 0), b.destination, b.amount, 0) else s.accounts)
    case Prepare =>
      Some(if e.role.Source? && Able(s.accounts, b.source, b.amount)
          then Shift(s.accounts, b.source, -b.amount, b.amount) else s.accounts)
    case Confirm =>
      var a := if e.role.Source? then b.source else b.destination;
      if a !in s.accounts then None
      else Some(if e.role.Source? then Shift(s.accounts, a, 0, -b.amount) else Shift(s.accounts, a, b.amount, 0))
    case Cancel =>
      if b.id in s.parts && s.parts[b.id].status.Prepared? && e.role.Source? then
        if b.source !in s.accounts then None else Some(Shift(s.accounts, b.source, b.amount, -b.amount))
      else Some(s.accounts)
  }

  /** The participant's status after an event. */
  function Resulting(s: Shard, e: Event): Status {
    var b := e.intent;
    match e.kind
    case Move => if Able(s.accounts, b.source, b.amount) && b.destination in s.accounts then Confirmed else Rejected
    case Prepare => if if e.role.Source? then Able(s.accounts, b.source, b.amount)
      else b.destination in s.accounts then Prepared else Rejected
    case Confirm => Confirmed
    case Cancel => Canceled
  }

  /** What an event requires of the record it touches. */
  predicate Admits(s: Shard, e: Event) {
    var id := e.intent.id;
    && (e.kind.Move? <==> e.role.Local?)
    && (id in s.parts ==> s.parts[id].intent == e.intent && s.parts[id].role == e.role)
    && match e.kind
       case Move => id !in s.parts
       case Prepare => id !in s.parts
       case Confirm => id in s.parts && s.parts[id].status.Prepared?
       case Cancel => id in s.parts ==> !s.parts[id].status.Confirmed? && !s.parts[id].status.Canceled?
  }

  /** `reduce_event` after genesis; None is the ValueError that leaves the projection alone. */
  function Reduce(s: Shard, e: Event): Option<Shard> {
    if !e.intent.Valid() || !Admits(s, e) then None
    else match Moved(s, e)
      case None => None
      case Some(accounts) =>
        if exists a :: a in accounts && (accounts[a].available < 0 || accounts[a].held < 0) then None
        else
          var id := e.intent.id;
          Some(Shard(accounts, s.parts[id := Part(e.intent, e.role, Resulting(s, e))], if id in s.parts then s.ids
              else s.ids + [id]))
  }

  // ---------------------------------------------------------------- what every event keeps

  /** What one record holds of an account. */
  function Hold(parts: map<string, Part>, id: string, a: string): int {
    if id in parts && parts[id].status.Prepared? && parts[id].role.Source? && parts[id].intent.source == a
      then parts[id].intent.amount else 0
  }

  ghost predicate Listed(s: Shard) {
    && Distinct(s.ids) && (forall id :: id in s.ids <==> id in s.parts)
    && (forall id :: id in s.parts ==> s.parts[id].intent.id == id && s.parts[id].intent.Valid())
    && (forall id :: id in s.parts && s.parts[id].status.Prepared? ==>
          Account(s.parts[id].role, s.parts[id].intent) in s.accounts && !s.parts[id].role.Local?)
  }

  function HeldFor(s: Shard, a: string): int {
    Total(s.ids, id => Hold(s.parts, id, a))
  }

  /** No balance is negative, and each account holds exactly what its prepared outgoing transfers reserve. */
  ghost predicate Sound(s: Shard) {
    && Listed(s)
    && forall a :: a in s.accounts ==>
       s.accounts[a].available >= 0 && s.accounts[a].held >= 0 && s.accounts[a].held == HeldFor(s, a)
  }

  lemma ReduceKeepsListed(s: Shard, e: Event)
    requires Listed(s) && Reduce(s, e).Some?
    ensures Listed(Reduce(s, e).value)
  {
    hide Shift;
    var t := Reduce(s, e).value;
    assert t.accounts.Keys == s.accounts.Keys;
  }

  lemma HeldChanges(s: Shard, e: Event, a: string)
    requires Listed(s) && Reduce(s, e).Some?
    ensures var t := Reduce(s, e).value;
      HeldFor(t, a) == HeldFor(s, a) + Hold(t.parts, e.intent.id, a) - Hold(s.parts, e.intent.id, a)
  {
    var t, id := Reduce(s, e).value, e.intent.id;
    var f, g := (x: string) => Hold(s.parts, x, a), (x: string) => Hold(t.parts, x, a);
    assert forall x :: x != id ==> f(x) == g(x);
    if id in s.parts {
      OneChanges(s.ids, f, g, id);
    } else {
      SameTotal(s.ids, f, g);
      TotalAppend(s.ids, id, g);
    }
  }

  /** Every event keeps every hold exact and no balance negative. */
  lemma ReduceKeepsSound(s: Shard, e: Event)
    requires Sound(s) && Reduce(s, e).Some?
    ensures Sound(Reduce(s, e).value)
  {
    hide HeldFor;
    var t := Reduce(s, e).value;
    ReduceKeepsListed(s, e);
    forall a | a in t.accounts ensures t.accounts[a].held == HeldFor(t, a) { HeldChanges(s, e, a); }
  }

  /** The holds cover every confirmation and cancellation a prepared record can ask for. */
  lemma SettlementNeverFails(s: Shard, e: Event)
    requires Sound(s) && Admits(s, e) && e.intent.Valid() && (e.kind.Confirm? || e.kind.Cancel?)
    ensures Reduce(s, e).Some?
  {
    var b := e.intent;
    if b.id in s.parts && s.parts[b.id].status.Prepared? && e.role.Source? {
      var f := (x: string) => Hold(s.parts, x, b.source);
      assert forall x :: x in s.ids ==> f(x) >= 0;
      TotalNonNegative(s.ids, f);
      assert f(b.id) <= HeldFor(s, b.source);
    }
  }

  function Worth(accounts: map<string, Balance>, a: string): int {
    if a in accounts then accounts[a].available + accounts[a].held else 0
  }

  /** How much money an event brings into the shard: a source confirmation takes it out, a destination's puts it in. */
  function Inflow(e: Event): int {
    if !e.kind.Confirm? then 0 else if e.role.Source? then -e.intent.amount else e.intent.amount
  }

  /** The shard's total moves by exactly the event's inflow. */
  lemma ReduceMovesInflow(s: Shard, e: Event, names: seq<string>)
    requires Listed(s) && Reduce(s, e).Some? && Distinct(names) && forall a :: a in s.accounts ==> a in names
    ensures var t := Reduce(s, e).value;
      && t.accounts.Keys == s.accounts.Keys
      && Total(names, a => Worth(t.accounts, a)) == Total(names, a => Worth(s.accounts, a)) + Inflow(e)
  {
    var t, b := Reduce(s, e).value, e.intent;
    var f, g := (a: string) => Worth(s.accounts, a), (a: string) => Worth(t.accounts, a);
    if t.accounts == s.accounts {
    } else if e.kind.Move? {
      TwoChange(names, f, g, b.source, b.destination);
    } else {
      OneChanges(names, f, g, Account(e.role, b));
    }
  }

  // ---------------------------------------------------------------- participant actions

  datatype Refusal = InvalidAction | WrongShard | Fenced | CommandConflict | TerminalConflict | NothingPrepared
      | EventRefused

  type Route = string -> nat

  predicate Routed(route: Route, index: nat, e: Event) {
    route(Account(e.role, e.intent)) == index && (e.role.Local? ==> route(e.intent.destination) == index)
  }

  datatype Done = Done(state: Shard, part: Part, appended: bool)

  /** `action` under the shard's own fence: repeat the recorded answer, refuse a conflict, or append one event. */
  function Act(s: Shard, route: Route, index: nat, e: Event): Result<Done, Refusal> {
    var id := e.intent.id;
    if !e.intent.Valid() || (e.kind.Move? != e.role.Local?) then Err(InvalidAction)
    else if !Routed(route, index, e) then Err(WrongShard)
    else if id in s.parts && (s.parts[id].intent != e.intent || s.parts[id].role != e.role) then Err(CommandConflict)
    else if id in s.parts && (e.kind.Move? || e.kind.Prepare? || (e.kind.Confirm? && s.parts[id].status.Confirmed?)
                              || (e.kind.Cancel? && s.parts[id].status.Canceled?)) then Ok(Done(s, s.parts[id], false))
    else if id in s.parts
      && ((e.kind.Confirm? && !s.parts[id].status.Prepared?) || (e.kind.Cancel? && s.parts[id].status.Confirmed?))
    then Err(TerminalConflict)
    else if id !in s.parts && e.kind.Confirm? then Err(NothingPrepared)
    else match Reduce(s, e)
      case None => Err(EventRefused)
      case Some(t) => Ok(Done(t, t.parts[id], true))
  }

  /** A command for a settled record either repeats its answer or is refused; nothing moves. */
  lemma SettledAnswers(s: Shard, route: Route, index: nat, e: Event)
    requires e.intent.id in s.parts && (s.parts[e.intent.id].status.Confirmed? || s.parts[e.intent.id].status.Canceled?)
    ensures var r := Act(s, route, index, e);
      && (r.Ok? ==> r.value == Done(s, s.parts[e.intent.id], false))
      && (s.parts[e.intent.id].status.Canceled? && e.kind.Confirm? ==> r.Err?)
      && (s.parts[e.intent.id].status.Confirmed? && e.kind.Cancel? ==> r.Err?)
  {
  }

  /** The record and the answer a command needs to be a repetition. */
  predicate Repeats(p: Option<Part>, e: Event) {
    && p.Some? && p.value.intent == e.intent && p.value.role == e.role
    && (e.kind.Confirm? ==> p.value.status.Confirmed?) && (e.kind.Cancel? ==> p.value.status.Canceled?)
  }

  lemma AcceptedRepeats(s: Shard, route: Route, index: nat, e: Event)
    requires Act(s, route, index, e).Ok?
    ensures var t := Act(s, route, index, e).value.state; var id := e.intent.id;
      && e.intent.Valid() && e.kind.Move? == e.role.Local? && Routed(route, index, e)
      && Repeats(if id in t.parts then Some(t.parts[id]) else None, e)
  {
    hide Moved;
  }

  lemma RepetitionAnswers(s: Shard, route: Route, index: nat, e: Event)
    requires e.intent.Valid() && e.kind.Move? == e.role.Local? && Routed(route, index, e)
    requires e.intent.id in s.parts && Repeats(Some(s.parts[e.intent.id]), e)
    ensures Act(s, route, index, e) == Ok(Done(s, s.parts[e.intent.id], false))
  {
  }

  /** Statuses only move forward: a prepared record settles once, a rejected one may only be tombstoned. */
  predicate Later(a: Status, b: Status) {
    a == b || (a.Prepared? && !b.Rejected?) || (a.Rejected? && b.Canceled?)
  }

  lemma StatusMovesForward(s: Shard, route: Route, index: nat, e: Event, id: string)
    requires Act(s, route, index, e).Ok? && id in s.parts
    ensures var t := Act(s, route, index, e).value.state;
      id in t.parts && t.parts[id].intent == s.parts[id].intent && t.parts[id].role == s.parts[id].role
      && Later(s.parts[id].status, t.parts[id].status) && (id != e.intent.id ==> t.parts[id] == s.parts[id])
  {
  }

  lemma ActKeepsSound(s: Shard, route: Route, index: nat, e: Event)
    requires Sound(s) && Act(s, route, index, e).Ok?
    ensures Sound(Act(s, route, index, e).value.state)
  {
    hide Sound, Moved, Admits;
    if Act(s, route, index, e).value.appended { ReduceKeepsSound(s, e); }
  }

  // ---------------------------------------------------------------- the shard process

  function Genesis(accounts: map<string, int>): Shard {
    Shard(map a | a in accounts :: Balance(accounts[a], 0), map[], [])
  }

  /** Replaying an event log; None where the log does not replay. */
  function Replay(accounts: map<string, int>, events: seq<Event>): Option<Shard> {
    if events == [] then Some(Genesis(accounts))
    else
      match Replay(accounts, events[..|events| - 1])
      case None => None
      case Some(s) => Reduce(s, events[|events| - 1])
  }

  class ShardProcess {
    const index: nat
    const opening: map<string, int>
    var accounts: map<string, Balance>
    var parts: map<string, Part>
    var ids: seq<string>
    var events: seq<Event>
    var epoch: int
    var leader: string

    function Projection(): Shard
      reads this
    {
      Shard(accounts, parts, ids)
    }

    /** The projection is what the event log replays to. */
    ghost predicate Valid()
      reads this
    {
      Replay(opening, events) == Some(Projection()) && Sound(Projection())
    }

    constructor (index: nat, opening: map<string, int>, epoch: int, leader: string)
      requires forall a :: a in opening ==> opening[a] >= 0
      ensures Valid() && Projection() == Genesis(opening) && events == [] && this.index == index
        && this.opening == opening
      ensures this.epoch == epoch && this.leader == leader
    {
      this.index, this.opening, this.epoch, this.leader := index, opening, epoch, leader;
      accounts, parts, ids, events := map a | a in opening :: Balance(opening[a], 0), map[], [], [];
    }

    /** `fence`: the epoch never goes back, nor to another owner within an epoch. */
    method Fence(epoch: int, leader: string) returns (ok: bool)
      modifies this`epoch, this`leader
      ensures ok == !(epoch < old(this.epoch) || (epoch == old(this.epoch) && leader != old(this.leader)))
      ensures (this.epoch, this.leader) == if ok then (epoch, leader) else (old(this.epoch), old(this.leader))
    {
      if epoch < this.epoch || (epoch == this.epoch && leader != this.leader) { return false; }
      this.epoch, this.leader := epoch, leader;
      ok := true;
    }

    /** Append one event and publish the projection it leads to, in one transaction. */
    method Append(e: Event) returns (ok: bool)
      requires Valid()
      modifies this`accounts, this`parts, this`ids, this`events
      ensures Valid()
      ensures ok == Reduce(old(Projection()), e).Some?
      ensures if ok then Some(Projection()) == Reduce(old(Projection()), e) && events == old(events) + [e]
              else Projection() == old(Projection()) && events == old(events)
    {
      hide Sound, Reduce;
      var updated := Reduce(Projection(), e);
      if updated.None? { return false; }
      ReduceKeepsSound(Projection(), e);
      events := events + [e];
      assert events[..|events| - 1] == old(events);
      accounts, parts, ids := updated.value.accounts, updated.value.parts, updated.value.ids;
      ok := true;
    }

    /** `action`. */
    method Action(route: Route, e: Event, epoch: int, leader: string) returns (r: Result<Part, Refusal>)
      requires Valid()
      modifies this`accounts, this`parts, this`ids, this`events
      ensures Valid()
      ensures (epoch, leader) != (this.epoch, this.leader) ==>
        r.Err? && Projection() == old(Projection()) && events == old(events)
      ensures (epoch, leader) == (this.epoch, this.leader) ==>
        match Act(old(Projection()), route, index, e)
        case Ok(d) => r == Ok(d.part) && Projection() == d.state && events == if d.appended then old(events) + [e]
          else old(events)
        case Err(f) => r == Err(f) && Projection() == old(Projection()) && events == old(events)
    {
      hide Sound, Moved, Resulting;
      if !e.intent.Valid() || (e.kind.Move? != e.role.Local?) { return Err(InvalidAction); }
      if !Routed(route, index, e) { return Err(WrongShard); }
      if epoch != this.epoch || leader != this.leader { return Err(Fenced); }
      var id := e.intent.id;
      if id in parts {
        var old' := parts[id];
        if old'.intent != e.intent || old'.role != e.role { return Err(CommandConflict); }
        if e.kind.Prepare? || e.kind.Move? || (e.kind.Confirm? && old'.status.Confirmed?)
          || (e.kind.Cancel? && old'.status.Canceled?) {
          return Ok(old');
        }
        if (e.kind.Confirm? && !old'.status.Prepared?) || (e.kind.Cancel? && old'.status.Confirmed?) {
          return Err(TerminalConflict);
        }
      } else if e.kind.Confirm? {
        return Err(NothingPrepared);
      }
      var ok := Append(e);
      if !ok { return Err(EventRefused); }
      r := Ok(parts[id]);
    }

    /** `rebuild`: replay the log from genesis; the projection comes out as it was. */
    method Rebuild()
      requires Valid()
      modifies this`accounts, this`parts, this`ids
      ensures Valid() && Projection() == old(Projection())
    {
      hide Sound, Reduce, Genesis;
      var state := Genesis(opening);
      var i := 0;
      while i < |events|
        invariant 0 <= i <= |events| && Replay(opening, events[..i]) == Some(state)
      {
        assert events[..i + 1][..i] == events[..i];
        ReplayPrefix(opening, events, i + 1);
        state := Reduce(state, events[i]).value;
        i := i + 1;
      }
      assert events[..|events|] == events;
      accounts, parts, ids := state.accounts, state.parts, state.ids;
    }
  }

  lemma {:induction false} ReplayPrefix(accounts: map<string, int>, events: seq<Event>, n: nat)
    requires Replay(accounts, events).Some? && n <= |events|
    ensures Replay(accounts, events[..n]).Some?
    decreases |events|
  {
    if n == |events| {
      assert events[..n] == events;
    } else {
      ReplayPrefix(accounts, events[..|events| - 1], n);
      assert events[..|events| - 1][..n] == events[..n];
    }
  }
}
