/** The generator's state under any clock: rollbacks, exhausted sequences, single requests and batches. */
module SnowflakeRuns {
  import opened Wrappers
  import opened Sorting
  import opened Bits
  import opened Snowflake

  /** The wall clock: its reading at every look, in any order whatever. */
  type Clock = nat -> int

  datatype State = State(last: int, sequence: nat)

  datatype GenerateError = ClockMovedBackwards | SequenceOverflow | OutsideRange | CountNotPositive

  datatype Outcome<T> = Outcome(result: Result<T, GenerateError>, state: State, tick: nat)

  const FRESH := State(-1, 0)

  /** `_wait_next_millis`; `patience` is how many looks the deadline still allows after this one. */
  function Wait(clock: Clock, tick: nat, last: int, patience: nat): (Result<int, GenerateError>, nat)
    decreases patience
  {
    var now := clock(tick);
    if now < last then (Err(ClockMovedBackwards), tick + 1)
    else if now > last then (Ok(now), tick + 1)
    else if patience == 0 then (Err(SequenceOverflow), tick + 1)
    else Wait(clock, tick + 1, last, patience - 1)
  }

  /** Range check, then the new state and its identifier together. */
  function Issue(c: Config, s: State, timestamp: int, sequence: nat, tick: nat): Outcome<nat>
    requires Legal(c)
  {
    var offset := timestamp - c.epoch;
    if !(0 <= offset <= Pow2(c.timestampBits) - 1) then Outcome(Err(OutsideRange), s, tick)
    else Outcome(Ok(Compose(c, offset, sequence)), State(timestamp, sequence), tick)
  }

  /** `_generate_locked`. */
  function Attempt(c: Config, clock: Clock, s: State, tick: nat, patience: nat): Outcome<nat>
    requires Legal(c)
  {
    var now := clock(tick);
    if now < s.last then Outcome(Err(ClockMovedBackwards), s, tick + 1)
    else if now > s.last then Issue(c, s, now, 0, tick + 1)
    else
      var sequence := And(s.sequence + 1, Pow2(c.sequenceBits) - 1);
      if sequence != 0 then Issue(c, s, now, sequence, tick + 1)
      else
        var w := Wait(clock, tick + 1, s.last, patience);
        if w.0.Err? then Outcome(Err(w.0.error), s, w.1) else Issue(c, s, w.0.value, 0, w.1)
  }

  /** `generate_batch`: all or nothing for the caller, though the state keeps what was spent before a failure. */
  function Batch(c: Config, clock: Clock, s: State, tick: nat, patience: nat, count: int): Outcome<seq<nat>>
    requires Legal(c)
  {
    if count <= 0 then Outcome(Err(CountNotPositive), s, tick) else Issued(c, clock, s, tick, patience, count)
  }

  function Issued(c: Config, clock: Clock, s: State, tick: nat, patience: nat, count: nat): Outcome<seq<nat>>
    requires Legal(c)
  {
    if count == 0 then Outcome(Ok([]), s, tick)
    else
      var before := Issued(c, clock, s, tick, patience, count - 1);
      if before.result.Err? then before
      else
        var a := Attempt(c, clock, before.state, before.tick, patience);
        if a.result.Err? then Outcome(Err(a.result.error), a.state, a.tick)
        else Outcome(Ok(before.result.value + [a.result.value]), a.state, a.tick)
  }

  // ---------------------------------------------------------------- one attempt

  /** Nothing issued yet, or the state of the last identifier issued. */
  ghost predicate Ready(c: Config, s: State) {
    && Legal(c) && s.sequence < Pow2(c.sequenceBits)
    && (s == FRESH || 0 <= s.last - c.epoch < Pow2(c.timestampBits))
  }

  lemma ReadyIsLegal(c: Config, s: State)
    requires Ready(c, s)
    ensures Legal(c)
  {
  }

  /** The last identifier issued. */
  ghost function Floor(c: Config, s: State): int
    requires Ready(c, s)
  {
    if s == FRESH then -1 else Compose(c, s.last - c.epoch, s.sequence)
  }

  lemma {:induction false} WaitAdvances(clock: Clock, tick: nat, last: int, patience: nat)
    ensures Wait(clock, tick, last, patience).0.Ok? ==> Wait(clock, tick, last, patience).0.value > last
    decreases patience
  {
    if patience > 0 { WaitAdvances(clock, tick + 1, last, patience - 1); }
  }

  lemma NextSequence(s: nat, k: nat)
    requires s < Pow2(k)
    ensures And(s + 1, Pow2(k) - 1) == if s + 1 == Pow2(k) then 0 else s + 1
  {
    hide And;
    AndMask(s + 1, k);
    if s + 1 == Pow2(k) { DivMod(1, Pow2(k), 0); } else { DivMod(0, Pow2(k), s + 1); }
  }

  /** An issued identifier exceeds every earlier one and is the new state; a failure changes nothing. */
  lemma AttemptIncreases(c: Config, clock: Clock, s: State, tick: nat, patience: nat)
    requires Ready(c, s)
    ensures var a := Attempt(c, clock, s, tick, patience);
      && Ready(c, a.state)
      && (a.result.Ok? ==> a.result.value > Floor(c, s) && a.result.value == Floor(c, a.state))
      && (a.result.Err? ==> a.state == s)
  {
    hide And, Or, Pow2, Compose;
    var a := Attempt(c, clock, s, tick, patience);
    NextSequence(s.sequence, c.sequenceBits);
    WaitAdvances(clock, tick + 1, s.last, patience);
    if a.result.Ok? {
      LaterIsReady(c, s, a.state);
      if s != FRESH { ComposeIsOrdered(c, s.last - c.epoch, s.sequence, a.state.last - c.epoch, a.state.sequence); }
    }
  }

  lemma LaterIsReady(c: Config, s: State, t: State)
    requires Ready(c, s) && 0 <= t.last - c.epoch < Pow2(c.timestampBits)
      && (t.sequence == 0 || t.sequence <= s.sequence + 1)
    requires t.sequence > 0 ==> t.sequence < Pow2(c.sequenceBits)
    ensures Ready(c, t) && t != FRESH
  {
  }

  // ---------------------------------------------------------------- batches and whole runs

  /** A run of identifiers above `low` and up to `high`. */
  ghost predicate Between(ids: seq<nat>, low: int, high: int) {
    Increasing(ids) && low <= high && forall i :: 0 <= i < |ids| ==> low < ids[i] <= high
  }

  lemma BetweenTwice(a: seq<nat>, b: seq<nat>, low: int, middle: int, high: int)
    requires Between(a, low, middle) && Between(b, middle, high)
    ensures Between(a + b, low, high)
  {
    var ids := a + b;
    forall i, j | 0 <= i < j < |ids| ensures ids[i] < ids[j] {
      if i < |a| <= j { assert ids[i] == a[i] && ids[j] == b[j - |a|]; }
    }
  }

  lemma {:induction false} IssuedIncreases(c: Config, clock: Clock, s: State, tick: nat, patience: nat, count: nat)
    requires Ready(c, s)
    ensures var b := Issued(c, clock, s, tick, patience, count);
      && Ready(c, b.state) && Floor(c, s) <= Floor(c, b.state)
      && (b.result.Ok? ==> |b.result.value| == count && Between(b.result.value, Floor(c, s), Floor(c, b.state)))
  {
    hide Ready, Floor, Attempt, Between;
    ReadyIsLegal(c, s);
    if count == 0 {
      NoneBetween(Floor(c, s));
    } else {
      IssuedIncreases(c, clock, s, tick, patience, count - 1);
      var before := Issued(c, clock, s, tick, patience, count - 1);
      AttemptIncreases(c, clock, before.state, before.tick, patience);
      var a := Attempt(c, clock, before.state, before.tick, patience);
      if before.result.Ok? && a.result.Ok? {
        OneBetween(a.result.value, Floor(c, before.state), Floor(c, a.state));
        BetweenTwice(before.result.value, [a.result.value], Floor(c, s), Floor(c, before.state), Floor(c, a.state));
      }
    }
  }

  lemma NoneBetween(low: int)
    ensures Between([], low, low)
  {
  }

  lemma OneBetween(id: nat, low: int, high: int)
    requires low < id <= high
    ensures Between([id], low, high)
  {
  }

  /** A request, with the patience its deadline leaves; a single request is a batch of one. */
  datatype Request = Request(count: int, patience: nat)

  /** Everything callers receive over a run of requests. */
  function Received(c: Config, clock: Clock, requests: seq<Request>): (seq<nat>, State, nat)
    requires Legal(c)
  {
    if requests == [] then ([], FRESH, 0)
    else
      var before := Received(c, clock, requests[..|requests| - 1]);
      var q := requests[|requests| - 1];
      var b := Batch(c, clock, before.1, before.2, q.patience, q.count);
      (before.0 + (if b.result.Ok? then b.result.value else []), b.state, b.tick)
  }

  /** Over any run of singles and batches, through rollbacks, overflows and failures, every identifier received is
      greater than all received before it. */
  lemma {:induction false} ReceivedIncreases(c: Config, clock: Clock, requests: seq<Request>)
    requires Legal(c)
    ensures var r := Received(c, clock, requests); Ready(c, r.1) && Between(r.0, -1, Floor(c, r.1))
  {
    hide Issued, Floor, Ready, Between;
    if requests == [] {
      FreshFloor(c);
      NoneBetween(-1);
    } else {
      var front, q := requests[..|requests| - 1], requests[|requests| - 1];
      ReceivedIncreases(c, clock, front);
      var before := Received(c, clock, front);
      var b := Batch(c, clock, before.1, before.2, q.patience, q.count);
      if q.count > 0 { IssuedIncreases(c, clock, before.1, before.2, q.patience, q.count); }
      if q.count > 0 && b.result.Ok? {
        BetweenTwice(before.0, b.result.value, -1, Floor(c, before.1), Floor(c, b.state));
      } else {
        RaiseBetween(before.0, -1, Floor(c, before.1), Floor(c, b.state));
        assert before.0 + [] == before.0;
      }
    }
  }

  lemma FreshFloor(c: Config)
    requires Legal(c)
    ensures Ready(c, FRESH) && Floor(c, FRESH) == -1
  {
  }

  lemma RaiseBetween(ids: seq<nat>, low: int, high: int, higher: int)
    requires Between(ids, low, high) && high <= higher
    ensures Between(ids, low, higher)
  {
  }

  /** What was issued is a composition of in-range fields under this generator's identity. */
  ghost predicate Ours(c: Config, id: nat) {
    Legal(c) && exists offset: nat, sequence: nat ::
      offset < Pow2(c.timestampBits) && sequence < Pow2(c.sequenceBits) && id == Compose(c, offset, sequence)
  }

  lemma AttemptIsOurs(c: Config, clock: Clock, s: State, tick: nat, patience: nat)
    requires Ready(c, s) && Attempt(c, clock, s, tick, patience).result.Ok?
    ensures Ours(c, Attempt(c, clock, s, tick, patience).result.value)
  {
    hide And, Or, Pow2, Compose;
    var a := Attempt(c, clock, s, tick, patience);
    AttemptIncreases(c, clock, s, tick, patience);
    NextSequence(s.sequence, c.sequenceBits);
    WaitAdvances(clock, tick + 1, s.last, patience);
    LaterIsReady(c, s, a.state);
    assert a.result.value == Compose(c, a.state.last - c.epoch, a.state.sequence);
  }

  lemma {:induction false} IssuedIsOurs(c: Config, clock: Clock, s: State, tick: nat, patience: nat, count: nat)
    requires Ready(c, s) && Issued(c, clock, s, tick, patience, count).result.Ok?
    ensures forall id :: id in Issued(c, clock, s, tick, patience, count).result.value ==> Ours(c, id)
  {
    hide Ready, Attempt, Ours;
    ReadyIsLegal(c, s);
    if count > 0 {
      IssuedIsOurs(c, clock, s, tick, patience, count - 1);
      IssuedIncreases(c, clock, s, tick, patience, count - 1);
      var before := Issued(c, clock, s, tick, patience, count - 1);
      AttemptIsOurs(c, clock, before.state, before.tick, patience);
    }
  }

  lemma {:induction false} ReceivedIsOurs(c: Config, clock: Clock, requests: seq<Request>)
    requires Legal(c)
    ensures forall id :: id in Received(c, clock, requests).0 ==> Ours(c, id)
  {
    hide Ready, Issued, Ours;
    if requests != [] {
      var front, q := requests[..|requests| - 1], requests[|requests| - 1];
      ReceivedIsOurs(c, clock, front);
      ReceivedIncreases(c, clock, front);
      var before := Received(c, clock, front);
      if q.count > 0 && Batch(c, clock, before.1, before.2, q.patience, q.count).result.Ok? {
        IssuedIsOurs(c, clock, before.1, before.2, q.patience, q.count);
      }
    }
  }

  /** A first request under a clock past the calendar but within the layout gives out an identifier that its own parser
      refuses. */
  lemma PastTheCalendarDoesNotParse(c: Config, clock: Clock, patience: nat)
    requires Legal(c) && clock(0) > LAST_MILLISECOND && 0 <= clock(0) - c.epoch < Pow2(c.timestampBits)
    ensures var id := Compose(c, clock(0) - c.epoch, 0);
      Received(c, clock, [Request(1, patience)]).0 == [id] && Parse(c, id) == Err(OutsideCalendar)
  {
    hide Pow2, Compose, Parse;
    var offset := clock(0) - c.epoch;
    ParseInvertsCompose(c, offset, 0);
    assert [Request(1, patience)][..0] == [];
    assert Issued(c, clock, FRESH, 0, patience, 0) == Outcome(Ok([]), FRESH, 0);
    assert Attempt(c, clock, FRESH, 0, patience).result == Ok(Compose(c, offset, 0));
  }

  /** For instance under a layout whose epoch lies there. */
  lemma SomeIdentifiersDoNotParse()
    ensures Legal(FAR) && |Received(FAR, _ => FAR.epoch, [Request(1, 0)]).0| == 1
    ensures Parse(FAR, Received(FAR, _ => FAR.epoch, [Request(1, 0)]).0[0]) == Err(OutsideCalendar)
  {
    hide Received, Parse;
    PastTheCalendarDoesNotParse(FAR, _ => FAR.epoch, 0);
  }

  /** Two generators of one layout with different identities, whatever their clocks and requests, never give out the
      same identifier. */
  lemma RunsNeverCollide(a: Config, b: Config, clockA: Clock, clockB: Clock, as': seq<Request>, bs: seq<Request>)
    requires Legal(a) && Legal(b) && a != b && b == a.(datacenterId := b.datacenterId, machineId := b.machineId)
    ensures forall id :: !(id in Received(a, clockA, as').0 && id in Received(b, clockB, bs).0)
  {
    hide Received, Compose, Pow2;
    ReceivedIsOurs(a, clockA, as');
    ReceivedIsOurs(b, clockB, bs);
    forall id | id in Received(a, clockA, as').0 ensures id !in Received(b, clockB, bs).0 {
      if id in Received(b, clockB, bs).0 {
        assert Ours(a, id) && Ours(b, id);
        var o1: nat, s1: nat :| o1 < Pow2(a.timestampBits) && s1 < Pow2(a.sequenceBits) && id == Compose(a, o1, s1);
        var o2: nat, s2: nat :| o2 < Pow2(b.timestampBits) && s2 < Pow2(b.sequenceBits) && id == Compose(b, o2, s2);
        IdentitiesNeverCollide(a, b, o1, s1, o2, s2);
      }
    }
  }

  /** Every identifier received parses to its moment, identity and sequence number, up to the end of the calendar. */
  lemma ReceivedParses(c: Config, clock: Clock, requests: seq<Request>, id: nat)
    requires Legal(c) && id in Received(c, clock, requests).0
    ensures id < Pow2(63) && (Parse(c, id).Err? ==> Parse(c, id).error == OutsideCalendar)
    ensures Parse(c, id).Ok? ==>
      var p := Parse(c, id).value;
      p.datacenter == c.datacenterId && p.machine == c.machineId && Compose(c, p.timestamp - c.epoch, p.sequence) == id
  {
    hide Received, Compose, Pow2;
    ReceivedIsOurs(c, clock, requests);
    assert Ours(c, id);
    var o: nat, s: nat :| o < Pow2(c.timestampBits) && s < Pow2(c.sequenceBits) && id == Compose(c, o, s);
    ComposeIsPacked(c, o, s);
    ParseReadsDigits(c, o, c.datacenterId, c.machineId, s);
  }

  // ---------------------------------------------------------------- the generator object

  class Generator {
    const config: Config
    var last: int
    var sequence: nat

    function Now(): State
      reads this
    {
      State(last, sequence)
    }

    ghost predicate Valid()
      reads this
    {
      Ready(config, Now())
    }

    constructor (c: Config)
      requires Legal(c)
      ensures Valid() && config == c && Now() == FRESH
    {
      config, last, sequence := c, -1, 0;
    }

    method WaitNextMillis(clock: Clock, tick: nat, patience: nat) returns (r: Result<int, GenerateError>, after: nat)
      ensures (r, after) == Wait(clock, tick, last, patience)
    {
      after := tick;
      var left := patience;
      while true
        invariant Wait(clock, tick, last, patience) == Wait(clock, after, last, left)
        decreases left
      {
        var now := clock(after);
        after := after + 1;
        if now < last { return Err(ClockMovedBackwards), after; }
        if now > last { return Ok(now), after; }
        if left == 0 { return Err(SequenceOverflow), after; }
        left := left - 1;
      }
    }

    /** `generate`: the state is published only after every check has passed. */
    method Generate(clock: Clock, tick: nat, patience: nat) returns (r: Result<nat, GenerateError>, after: nat)
      requires Valid()
      modifies this`last, this`sequence
      ensures Valid()
      ensures Outcome(r, Now(), after) == Attempt(config, clock, old(Now()), tick, patience)
    {
      hide Compose, Ready, And, Pow2;
      AttemptIncreases(config, clock, Now(), tick, patience);
      ReadyIsLegal(config, Now());
      var timestamp := clock(tick);
      after := tick + 1;
      if timestamp < last { return Err(ClockMovedBackwards), after; }
      var next := 0;
      if timestamp == last {
        next := And(sequence + 1, Pow2(config.sequenceBits) - 1);
        if next == 0 {
          var waited;
          waited, after := WaitNextMillis(clock, after, patience);
          if waited.Err? { return Err(waited.error), after; }
          timestamp := waited.value;
        }
      }
      var offset := timestamp - config.epoch;
      if !(0 <= offset <= Pow2(config.timestampBits) - 1) { return Err(OutsideRange), after; }
      last, sequence := timestamp, next;
      r := Ok(Compose(config, offset, next));
    }

    /** `generate_batch`. */
    method GenerateBatch(clock: Clock, tick: nat, patience: nat, count: int)
        returns (r: Result<seq<nat>, GenerateError>, after: nat)
      requires Valid()
      modifies this`last, this`sequence
      ensures Valid()
      ensures Outcome(r, Now(), after) == Batch(config, clock, old(Now()), tick, patience, count)
    {
      hide Ready, Attempt;
      ReadyIsLegal(config, Now());
      if count <= 0 { return Err(CountNotPositive), tick; }
      var ids: seq<nat> := [];
      after := tick;
      var i := 0;
      while i < count
        invariant 0 <= i <= count && Valid()
        invariant Outcome(Ok(ids), Now(), after) == Issued(config, clock, old(Now()), tick, patience, i)
      {
        var one;
        one, after := Generate(clock, after, patience);
        if one.Err? {
          IssuedFails(config, clock, old(Now()), tick, patience, i + 1, count);
          return Err(one.error), after;
        }
        ids := ids + [one.value];
        i := i + 1;
      }
      r := Ok(ids);
    }
  }

  lemma {:induction false} IssuedFails(c: Config, clock: Clock, s: State, tick: nat, patience: nat, i: nat, count: nat)
    requires Legal(c) && i <= count && Issued(c, clock, s, tick, patience, i).result.Err?
    ensures Issued(c, clock, s, tick, patience, count) == Issued(c, clock, s, tick, patience, i)
    decreases count
  {
    if i < count { IssuedFails(c, clock, s, tick, patience, i, count - 1); }
  }
}
