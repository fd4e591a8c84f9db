/** The law of issued identifiers: their times are clock readings, the sequence counts on within a millisecond and
    starts again at zero in the next, and every failure has its reason. */
module SnowflakeLaw {
  import opened Wrappers
  import opened Bits
  import opened Snowflake
  import opened SnowflakeRuns

  // ---------------------------------------------------------------- one attempt

  /** The moment fits the layout. */
  predicate InLayout(c: Config, timestamp: int)
    requires Legal(c)
  {
    0 <= timestamp - c.epoch < Pow2(c.timestampBits)
  }

  /** The attempt issued the identifier of this moment and sequence number, or found the moment outside the layout. */
  ghost predicate Issues(c: Config, s: State, a: Outcome<nat>, timestamp: int, sequence: nat)
    requires Legal(c)
  {
    if InLayout(c, timestamp) then
      a.result == Ok(Compose(c, timestamp - c.epoch, sequence)) && a.state == State(timestamp, sequence)
    else a.result == Err(OutsideRange) && a.state == s
  }

  /** The first of the looks `tick` up to `tick + patience` that shows another time than `last`. */
  function FirstChange(clock: Clock, tick: nat, last: int, patience: nat): (r: Option<nat>)
    ensures r.Some? ==> tick <= r.value <= tick + patience && clock(r.value) != last
    ensures forall k :: tick <= k < (if r.Some? then r.value else tick + patience + 1) ==> clock(k) == last
    decreases patience
  {
    if clock(tick) != last then Some(tick)
    else if patience == 0 then None
    else FirstChange(clock, tick + 1, last, patience - 1)
  }

  lemma {:induction false} WaitIsFirstChange(clock: Clock, tick: nat, last: int, patience: nat)
    ensures Wait(clock, tick, last, patience) ==
      match FirstChange(clock, tick, last, patience)
      case None => (Err(SequenceOverflow), tick + patience + 1)
      case Some(k) => (if clock(k) < last then Err(ClockMovedBackwards) else Ok(clock(k)), k + 1)
    decreases patience
  {
    if clock(tick) == last && patience > 0 { WaitIsFirstChange(clock, tick + 1, last, patience - 1); }
  }

  /** A clock behind the last time issued fails. A later time issues sequence number zero. The same time issues the next
      number; when there is none, the first look at another time decides, and without one the sequence overflows. A
      failure changes nothing. */
  lemma AttemptIsExact(c: Config, clock: Clock, s: State, tick: nat, patience: nat)
    requires Ready(c, s)
    ensures var now := clock(tick); var a := Attempt(c, clock, s, tick, patience);
      && a.tick > tick
      && (now < s.last ==> a.result == Err(ClockMovedBackwards) && a.state == s)
      && (now > s.last ==> Issues(c, s, a, now, 0))
      && (now == s.last && s.sequence + 1 < Pow2(c.sequenceBits) ==> Issues(c, s, a, now, s.sequence + 1))
      && (now == s.last && s.sequence + 1 == Pow2(c.sequenceBits) ==>
            match FirstChange(clock, tick + 1, s.last, patience)
            case None => a.result == Err(SequenceOverflow) && a.state == s
            case Some(k) =>
              && k < a.tick
              && if clock(k) < s.last then a.result == Err(ClockMovedBackwards) && a.state == s
                 else Issues(c, s, a, clock(k), 0))
  {
    hide And, Or, Pow2, Compose, Wait, FirstChange;
    NextSequence(s.sequence, c.sequenceBits);
    WaitIsFirstChange(clock, tick + 1, s.last, patience);
  }

  // ---------------------------------------------------------------- consecutive identifiers

  /** `id` is what comes after state `a`: the next number of the same millisecond, or number zero of a later one. */
  ghost predicate Follows(c: Config, a: State, id: nat, b: State) {
    && Legal(c) && InLayout(c, b.last) && id == Compose(c, b.last - c.epoch, b.sequence)
    && b.sequence < Pow2(c.sequenceBits) && b.last >= a.last
    && b.sequence == if b.last == a.last then a.sequence + 1 else 0
  }

  /** The states between consecutive identifiers. */
  ghost predicate Trail(c: Config, ids: seq<nat>, states: seq<State>) {
    |states| == |ids| + 1 && forall i :: 0 <= i < |ids| ==> Follows(c, states[i], ids[i], states[i + 1])
  }

  /** The time was read off the clock at one of these looks. */
  ghost predicate WasRead(clock: Clock, from: nat, to: nat, timestamp: int) {
    exists k :: from <= k < to && clock(k) == timestamp
  }

  ghost predicate AllRead(clock: Clock, from: nat, to: nat, states: seq<State>) {
    forall i :: 0 < i < |states| ==> WasRead(clock, from, to, states[i].last)
  }

  lemma TrailJoin(c: Config, a: seq<nat>, ss: seq<State>, b: seq<nat>, ts: seq<State>)
    requires Trail(c, a, ss) && Trail(c, b, ts) && ss[|a|] == ts[0]
    ensures Trail(c, a + b, ss + ts[1..])
  {
    var ids, states := a + b, ss + ts[1..];
    forall i | 0 <= i < |ids| ensures Follows(c, states[i], ids[i], states[i + 1]) {
      if i < |a| {
        assert Follows(c, ss[i], a[i], ss[i + 1]);
      } else {
        assert states[i + 1] == ts[i + 1 - |a|] && states[i] == ts[i - |a|];
        assert Follows(c, ts[i - |a|], b[i - |a|], ts[i + 1 - |a|]);
      }
    }
  }

  lemma ReadJoin(clock: Clock, m: nat, n: nat, k: nat, l: nat, ss: seq<State>, ts: seq<State>)
    requires ts != [] && AllRead(clock, m, n, ss) && AllRead(clock, k, l, ts) && m <= k && n <= l
    ensures ss != [] ==> AllRead(clock, m, l, ss + ts[1..])
  {
    if ss != [] {
      var all := ss + ts[1..];
      forall i | 0 < i < |all| ensures WasRead(clock, m, l, all[i].last) {
        if i < |ss| {
          assert WasRead(clock, m, n, ss[i].last);
        } else {
          assert all[i] == ts[i - |ss| + 1] && WasRead(clock, k, l, ts[i - |ss| + 1].last);
        }
      }
    }
  }

  /** Why a request failed in the state it left. */
  ghost predicate Explains(c: Config, clock: Clock, from: nat, to: nat, s: State, e: GenerateError)
    requires Legal(c)
  {
    match e
    case ClockMovedBackwards => exists k :: from <= k < to && clock(k) < s.last
    case SequenceOverflow => s.sequence + 1 == Pow2(c.sequenceBits) && WasRead(clock, from, to, s.last)
    case OutsideRange => exists k :: from <= k < to && !InLayout(c, clock(k))
    case CountNotPositive => false
  }

  lemma AttemptFollows(c: Config, clock: Clock, s: State, tick: nat, patience: nat)
    requires Ready(c, s)
    ensures var a := Attempt(c, clock, s, tick, patience);
      && a.tick > tick && Ready(c, a.state)
      && (a.result.Ok? ==> Follows(c, s, a.result.value, a.state) && WasRead(clock, tick, a.tick, a.state.last))
      && (a.result.Err? ==> a.state == s && Explains(c, clock, tick, a.tick, s, a.result.error))
  {
    hide Pow2, Compose, Attempt, FirstChange, Floor;
    AttemptIsExact(c, clock, s, tick, patience);
    AttemptIncreases(c, clock, s, tick, patience);
    ReadyIsLegal(c, s);
    var a := Attempt(c, clock, s, tick, patience);
    assert clock(tick) == clock(tick);
    assert a.result.Ok? ==> InLayout(c, a.state.last);
  }

  /** A batch issues a trail of identifiers from the state it finds; it hands out the whole trail, or fails for a reason
      before it is complete. */
  lemma {:induction false} IssuedTrail(c: Config, clock: Clock, s: State, tick: nat, patience: nat, count: nat)
    returns (ids: seq<nat>, states: seq<State>)
    requires Ready(c, s)
    ensures var b := Issued(c, clock, s, tick, patience, count);
      && b.tick >= tick && Ready(c, b.state)
      && Trail(c, ids, states) && states[0] == s && states[|ids|] == b.state && AllRead(clock, tick, b.tick, states)
      && (b.result.Ok? ==> ids == b.result.value && |ids| == count)
      && (b.result.Err? ==> |ids| < count && Explains(c, clock, tick, b.tick, b.state, b.result.error))
    decreases count
  {
    hide Attempt, Follows, Explains, Ready, WasRead;
    ReadyIsLegal(c, s);
    if count == 0 {
      ids, states := [], [s];
    } else {
      ids, states := IssuedTrail(c, clock, s, tick, patience, count - 1);
      var before := Issued(c, clock, s, tick, patience, count - 1);
      if before.result.Ok? {
        AttemptFollows(c, clock, before.state, before.tick, patience);
        var a := Attempt(c, clock, before.state, before.tick, patience);
        WiderRead(c, clock, tick, before.tick, a.tick, before.state, states);
        if a.result.Ok? {
          OneStep(c, clock, before.state, a.result.value, a.state, before.tick, a.tick);
          TrailJoin(c, ids, states, [a.result.value], [before.state, a.state]);
          ReadJoin(clock, tick, before.tick, before.tick, a.tick, states, [before.state, a.state]);
          assert [before.state, a.state][1..] == [a.state];
          ids, states := ids + [a.result.value], states + [a.state];
        } else {
          ExplainsWider(c, clock, tick, before.tick, a.tick, before.state, a.result.error);
        }
      }
    }
  }

  lemma OneStep(c: Config, clock: Clock, s: State, id: nat, t: State, from: nat, to: nat)
    requires Follows(c, s, id, t) && WasRead(clock, from, to, t.last)
    ensures Trail(c, [id], [s, t]) && AllRead(clock, from, to, [s, t])
  {
  }

  lemma WiderRead(c: Config, clock: Clock, from: nat, to: nat, later: nat, s: State, states: seq<State>)
    requires AllRead(clock, from, to, states) && to <= later
    ensures AllRead(clock, from, later, states)
  {
    forall i | 0 < i < |states| ensures WasRead(clock, from, later, states[i].last) {
      assert WasRead(clock, from, to, states[i].last);
    }
  }

  lemma ExplainsWider(c: Config, clock: Clock, from: nat, middle: nat, to: nat, s: State, e: GenerateError)
    requires Legal(c) && from <= middle && Explains(c, clock, middle, to, s, e)
    ensures Explains(c, clock, from, to, s, e)
  {
  }

  // ---------------------------------------------------------------- whole runs

  /** Request `n` was a single one or got all it asked for. */
  ghost predicate Whole(c: Config, clock: Clock, requests: seq<Request>, n: nat)
    requires Legal(c) && n < |requests|
  {
    || requests[n].count <= 1
    || |Received(c, clock, requests[..n + 1]).0| == |Received(c, clock, requests[..n]).0| + requests[n].count
  }

  ghost predicate NoPartialBatch(c: Config, clock: Clock, requests: seq<Request>)
    requires Legal(c)
  {
    forall n: nat :: n < |requests| ==> Whole(c, clock, requests, n)
  }

  /** Over any run the identifiers issued form one trail from the fresh state; every one received is among them, and
      without a batch failing half way they are exactly the ones received. */
  lemma {:induction false} RunTrail(c: Config, clock: Clock, requests: seq<Request>)
    returns (ids: seq<nat>, states: seq<State>)
    requires Legal(c)
    ensures var r := Received(c, clock, requests);
      && Ready(c, r.1) && Trail(c, ids, states) && states[0] == FRESH && states[|ids|] == r.1
      && AllRead(clock, 0, r.2, states)
      && (forall id :: id in r.0 ==> id in ids)
      && (NoPartialBatch(c, clock, requests) ==> ids == r.0)
  {
    hide Issued, Trail, AllRead, Ready, Explains;
    if requests == [] {
      ids, states := [], [FRESH];
      FreshFloor(c);
      EmptyTrail(c, clock);
    } else {
      var front, q := requests[..|requests| - 1], requests[|requests| - 1];
      ids, states := RunTrail(c, clock, front);
      var before := Received(c, clock, front);
      PartialBefore(c, clock, requests);
      if q.count > 0 {
        var more, steps := IssuedTrail(c, clock, before.1, before.2, q.patience, q.count);
        var b := Issued(c, clock, before.1, before.2, q.patience, q.count);
        TrailLengths(c, ids, states);
        TrailLengths(c, more, steps);
        TrailJoin(c, ids, states, more, steps);
        ReadJoin(clock, 0, before.2, before.2, b.tick, states, steps);
        if b.result.Err? {
          assert before.0 + [] == before.0;
          assert requests[..|requests| - 1 + 1] == requests;
          assert q.count > 1 ==> !Whole(c, clock, requests, |requests| - 1);
          assert q.count == 1 ==> more == [] && ids == ids + [];
        }
        ids, states := ids + more, states + steps[1..];
      } else {
        assert before.0 + [] == before.0;
      }
    }
  }

  lemma TrailLengths(c: Config, ids: seq<nat>, states: seq<State>)
    requires Trail(c, ids, states)
    ensures |states| == |ids| + 1
  {
  }

  lemma EmptyTrail(c: Config, clock: Clock)
    ensures Trail(c, [], [FRESH]) && AllRead(clock, 0, 0, [FRESH])
  {
  }

  lemma PartialBefore(c: Config, clock: Clock, requests: seq<Request>)
    requires Legal(c) && requests != []
    ensures NoPartialBatch(c, clock, requests) ==> NoPartialBatch(c, clock, requests[..|requests| - 1])
  {
    hide Received;
    var front := requests[..|requests| - 1];
    forall n: nat | n < |front| ensures Whole(c, clock, front, n) == Whole(c, clock, requests, n) {
      assert front[..n + 1] == requests[..n + 1] && front[..n] == requests[..n];
    }
  }

  /** The identifiers end with number `q` of the last millisecond and one for each number after it. */
  ghost predicate NumberAt(c: Config, ids: seq<nat>, s: State, q: nat) {
    && Legal(c) && InLayout(c, s.last) && q <= s.sequence && |ids| > s.sequence - q
    && ids[|ids| - 1 - (s.sequence - q)] == Compose(c, s.last - c.epoch, q)
  }

  /** A trail that has come to some number of a millisecond ends with all the numbers up to it, one after another. */
  lemma {:induction false} MillisecondIsFull(c: Config, ids: seq<nat>, states: seq<State>)
    requires Legal(c) && Trail(c, ids, states) && states[0] == FRESH && |ids| > 0
    ensures forall q: nat :: q <= states[|ids|].sequence ==> NumberAt(c, ids, states[|ids|], q)
    decreases |ids|
  {
    hide Compose, Pow2, Legal;
    LegalEpoch(c);
    var n := |ids|;
    var s, before := states[n], states[n - 1];
    assert Follows(c, before, ids[n - 1], s);
    forall q: nat | q <= s.sequence ensures NumberAt(c, ids, s, q) {
      if q < s.sequence {
        MillisecondIsFull(c, ids[..n - 1], states[..n]);
        assert NumberAt(c, ids[..n - 1], before, q);
      }
    }
  }

  lemma LegalEpoch(c: Config)
    requires Legal(c)
    ensures c.epoch > 0
  {
  }

  /** A request fails with an overflow only after every number of its millisecond has been issued, in order. */
  lemma OverflowIsEarned(c: Config, clock: Clock, requests: seq<Request>, patience: nat, count: int)
    returns (ids: seq<nat>, last: State)
    requires Legal(c)
    requires var r := Received(c, clock, requests);
      Batch(c, clock, r.1, r.2, patience, count).result == Err(SequenceOverflow)
    ensures last.sequence + 1 == Pow2(c.sequenceBits)
    ensures forall q: nat :: q < Pow2(c.sequenceBits) ==> NumberAt(c, ids, last, q)
    ensures forall id :: id in Received(c, clock, requests).0 ==> id in ids
    ensures count == 1 && NoPartialBatch(c, clock, requests) ==> ids == Received(c, clock, requests).0
  {
    hide Issued, Received, Compose, Pow2, Legal, Follows, AllRead, Ready;
    var before, ss := RunTrail(c, clock, requests);
    var r := Received(c, clock, requests);
    var more, ts := IssuedTrail(c, clock, r.1, r.2, patience, count);
    TrailJoin(c, before, ss, more, ts);
    ids, last := before + more, ts[|more|];
    var states := ss + ts[1..];
    assert states[|ids|] == last;
    TwoNumbers(c);
    assert |ids| > 0;
    MillisecondIsFull(c, ids, states);
    assert more == [] ==> before + more == before;
  }

  /** After any run, a request whose first look at the clock shows a time behind the last one issued is refused with the
      rollback error and changes nothing; and every refusal has the reason its error names. */
  lemma RefusalsHaveReasons(c: Config, clock: Clock, requests: seq<Request>, patience: nat, count: int)
    requires Legal(c) && count > 0
    ensures var r := Received(c, clock, requests); var b := Batch(c, clock, r.1, r.2, patience, count);
      && (clock(r.2) < r.1.last ==> b.result == Err(ClockMovedBackwards) && b.state == r.1)
      && (b.result.Err? ==> Explains(c, clock, r.2, b.tick, b.state, b.result.error))
  {
    hide Received, Attempt, Compose, Pow2, Legal, Follows, AllRead, Ready, Trail, Explains, FirstChange;
    var before, ss := RunTrail(c, clock, requests);
    var r := Received(c, clock, requests);
    var more, ts := IssuedTrail(c, clock, r.1, r.2, patience, count);
    AttemptIsExact(c, clock, r.1, r.2, patience);
    assert Issued(c, clock, r.1, r.2, patience, 0) == Outcome(Ok([]), r.1, r.2);
    if clock(r.2) < r.1.last { IssuedFails(c, clock, r.1, r.2, patience, 1, count); }
  }

  lemma TwoNumbers(c: Config)
    requires Legal(c)
    ensures Pow2(c.sequenceBits) >= 2
  {
    assert Pow2(c.sequenceBits) == 2 * Pow2(c.sequenceBits - 1);
  }
}
