/** A client that waits for one reply while events keep arriving: what its buffer keeps, and the two ways it can lose a
    message. */
module Inbox {
  import opened Wrappers
  import opened Texts

  // ---------------------------------------------------------------- messages and Python equality

  datatype Json = Null | Bool(flag: bool) | Number(whole: int) | Float(value: real) | Text(text: string)
                | List(items: seq<Json>) | Object(fields: map<string, Json>)

  /** Booleans, integers and floats compare by value, at any depth. */
  function Canonical(j: Json): Json {
    match j
    case Null => j
    case Bool(b) => Float(if b then 1.0 else 0.0)
    case Number(i) => Float(i as real)
    case Float(_) => j
    case Text(_) => j
    case List(items) => List(seq(|items|, i requires 0 <= i < |items| => Canonical(items[i])))
    case Object(fields) => Object(map k | k in fields :: Canonical(fields[k]))
  }

  /** Python's `==` on decoded messages. */
  predicate Same(a: Json, b: Json) { Canonical(a) == Canonical(b) }

  /** A message and its place in the order of arrival; the place is bookkeeping, no comparison sees it. */
  datatype Arrival = Arrival(at: nat, body: Json)

  /** Everything the socket will ever deliver, in order; None stands for a frame that is not JSON. */
  type Stream = nat -> Option<Json>

  /** A caller's test of a message; None is an exception. */
  type Wish = Json -> Option<bool>

  /** `message.get("request_id") == request_id`: only objects have `get`. */
  function Answers(j: Json, counter: nat): Option<bool> {
    if !j.Object? then None
    else Some("request_id" in j.fields && j.fields["request_id"] == Text(Decimal(counter)))
  }

  /** What a waiting call makes of an arriving frame; None is the exception that ends it. */
  function Verdict(wish: Wish, frame: Option<Json>): Option<bool> {
    if frame.None? then None else wish(frame.value)
  }

  // ---------------------------------------------------------------- the client

  datatype Client = Client(counter: nat, events: seq<Arrival>, received: nat, returned: seq<Arrival>)

  const NEW := Client(0, [], 0, [])

  /** Receive until a wanted message comes; the others are buffered. `budget` receives happen before the wait fails. An
      exception ends the call with the frame already taken off the socket. */
  function Await(stream: Stream, c: Client, wish: Wish, budget: nat): Client
    decreases budget
  {
    if budget == 0 then c
    else
      var d := c.(received := c.received + 1);
      match Verdict(wish, stream(c.received))
      case None => d
      case Some(true) => d.(returned := d.returned + [Taken(stream, c.received)])
      case Some(false) => Await(stream, d.(events := d.events + [Taken(stream, c.received)]), wish, budget - 1)
  }

  function Taken(stream: Stream, at: nat): Arrival
    requires stream(at).Some?
  {
    Arrival(at, stream(at).value)
  }

  /** The first of the next `budget` frames to raise, if the wait gets that far. */
  function Raises(stream: Stream, from: nat, wish: Wish, budget: nat): (r: Option<nat>)
    ensures r.Some? ==> from <= r.value < from + budget && Verdict(wish, stream(r.value)) == None
    ensures r.Some? ==> forall at :: from <= at < r.value ==> Verdict(wish, stream(at)) == Some(false)
    ensures r.None? ==> forall at :: from <= at < from + budget && Verdict(wish, stream(at)) == None ==>
      exists k :: from <= k < at && Verdict(wish, stream(k)) == Some(true)
    decreases budget
  {
    if budget == 0 then None
    else
      match Verdict(wish, stream(from))
      case None => Some(from)
      case Some(true) => None
      case Some(false) => Raises(stream, from + 1, wish, budget - 1)
  }

  function Reply(counter: nat): Wish { (j: Json) => Answers(j, counter) }

  /** `command`. */
  function Command(stream: Stream, c: Client, budget: nat): Client {
    Await(stream, c.(counter := c.counter + 1), Reply(c.counter + 1), budget)
  }

  /** The first buffered message that is not simply unwanted: it is wanted, or testing it raises. */
  function First(events: seq<Arrival>, wish: Wish): (r: nat)
    ensures r <= |events| && (r < |events| ==> wish(events[r].body) != Some(false))
    ensures forall i :: 0 <= i < r ==> wish(events[i].body) == Some(false)
  {
    if events == [] || wish(events[0].body) != Some(false) then 0 else 1 + First(events[1..], wish)
  }

  /** The buffered message `until` takes. */
  function Match(events: seq<Arrival>, wish: Wish): (r: Option<nat>)
    ensures r.Some? ==> r.value < |events| && wish(events[r.value].body) == Some(true)
    ensures r.Some? ==> forall i :: 0 <= i < r.value ==> wish(events[i].body) == Some(false)
  {
    var i := First(events, wish);
    if i < |events| && wish(events[i].body) == Some(true) then Some(i) else None
  }

  /** Where `list.remove` deletes: the first message equal to the one given. */
  function Equal(events: seq<Arrival>, body: Json): (r: nat)
    ensures r <= |events| && (r < |events| ==> Same(events[r].body, body))
    ensures forall i :: 0 <= i < r ==> !Same(events[i].body, body)
  {
    if events == [] || Same(events[0].body, body) then 0 else 1 + Equal(events[1..], body)
  }

  function Without(events: seq<Arrival>, i: nat): seq<Arrival> {
    if i < |events| then events[..i] + events[i + 1..] else events
  }

  /** `until`. */
  function Until(stream: Stream, c: Client, wish: Wish, budget: nat): Client {
    match Match(c.events, wish)
    case Some(i) =>
      c.(events := Without(c.events, Equal(c.events, c.events[i].body)), returned := c.returned + [c.events[i]])
    case None => if First(c.events, wish) < |c.events| then c else Await(stream, c, wish, budget)
  }

  datatype Call = CommandCall(budget: nat) | UntilCall(wish: Wish, budget: nat)

  function Step(stream: Stream, c: Client, call: Call): Client {
    match call
    case CommandCall(budget) => Command(stream, c, budget)
    case UntilCall(wish, budget) => Until(stream, c, wish, budget)
  }

  function Run(stream: Stream, calls: seq<Call>): Client {
    if calls == [] then NEW else Step(stream, Run(stream, calls[..|calls| - 1]), calls[|calls| - 1])
  }

  // ---------------------------------------------------------------- nothing lost, repeated or reordered

  ghost predicate Buffered(c: Client, at: nat) {
    exists k :: 0 <= k < |c.events| && c.events[k].at == at
  }

  ghost predicate Returned(c: Client, at: nat) {
    exists k :: 0 <= k < |c.returned| && c.returned[k].at == at
  }

  /** Buffered messages are what arrived, in order of arrival, and every message received is either buffered or has
      been returned, never both and never twice. */
  ghost predicate Exact(stream: Stream, c: Client) {
    && (forall k :: 0 <= k < |c.events| ==>
         c.events[k].at < c.received && stream(c.events[k].at) == Some(c.events[k].body))
    && (forall k :: 0 <= k < |c.returned| ==>
         c.returned[k].at < c.received && stream(c.returned[k].at) == Some(c.returned[k].body))
    && (forall i, j :: 0 <= i < j < |c.events| ==> c.events[i].at < c.events[j].at)
    && (forall i, j :: 0 <= i < j < |c.returned| ==> c.returned[i].at != c.returned[j].at)
    && (forall at: nat :: at < c.received ==> (Buffered(c, at) <==> !Returned(c, at)))
  }

  lemma {:induction false} AwaitKeepsExact(stream: Stream, c: Client, wish: Wish, budget: nat)
    requires Exact(stream, c) && Raises(stream, c.received, wish, budget).None?
    ensures Exact(stream, Await(stream, c, wish, budget))
    decreases budget
  {
    hide Exact;
    if budget > 0 {
      var m := Taken(stream, c.received);
      if Verdict(wish, stream(c.received)) == Some(true) {
        TakeKeepsExact(stream, c, m);
      } else {
        KeepKeepsExact(stream, c, m);
        AwaitKeepsExact(stream, c.(received := c.received + 1, events := c.events + [m]), wish, budget - 1);
      }
    }
  }

  lemma TakeKeepsExact(stream: Stream, c: Client, m: Arrival)
    requires Exact(stream, c) && m.at == c.received && stream(c.received) == Some(m.body)
    ensures Exact(stream, c.(received := c.received + 1, returned := c.returned + [m]))
  {
    var d := c.(received := c.received + 1, returned := c.returned + [m]);
    assert d.returned[|c.returned|] == m;
    forall at: nat | at < d.received ensures Buffered(d, at) <==> !Returned(d, at) {
      assert Buffered(d, at) == Buffered(c, at);
      ReturnedAppend(c, m, at);
    }
  }

  lemma ReturnedAppend(c: Client, m: Arrival, at: nat)
    ensures Returned(c.(returned := c.returned + [m]), at) <==> Returned(c, at) || m.at == at
  {
    var d := c.(returned := c.returned + [m]);
    assert d.returned[|c.returned|] == m && forall k :: 0 <= k < |c.returned| ==> d.returned[k] == c.returned[k];
  }

  lemma KeepKeepsExact(stream: Stream, c: Client, m: Arrival)
    requires Exact(stream, c) && m.at == c.received && stream(c.received) == Some(m.body)
    ensures Exact(stream, c.(received := c.received + 1, events := c.events + [m]))
  {
    var d := c.(received := c.received + 1, events := c.events + [m]);
    assert d.events[|c.events|] == m && forall k :: 0 <= k < |c.events| ==> d.events[k] == c.events[k];
    forall at: nat | at < d.received ensures Buffered(d, at) <==> !Returned(d, at) {
      assert Returned(d, at) == Returned(c, at);
      assert Buffered(d, at) <==> Buffered(c, at) || at == m.at;
    }
  }

  /** What a call that has to receive tests arriving messages with; None when the buffer decides it. */
  function Waiting(c: Client, call: Call): Option<(Wish, nat)> {
    match call
    case CommandCall(budget) => Some((Reply(c.counter + 1), budget))
    case UntilCall(wish, budget) => if First(c.events, wish) < |c.events| then None else Some((wish, budget))
  }

  /** No buffered message before the wanted one equals it, and no arriving message raises before the call is served. */
  predicate Clear(stream: Stream, c: Client, call: Call) {
    && (call.UntilCall? && Match(c.events, call.wish).Some? ==>
          var i := Match(c.events, call.wish).value;
          forall k :: 0 <= k < i ==> !Same(c.events[k].body, c.events[i].body))
    && (Waiting(c, call).Some? ==>
          Raises(stream, c.received, Waiting(c, call).value.0, Waiting(c, call).value.1).None?)
  }

  /** Every frame is an object and no test raises: then only equal messages are a danger. */
  lemma WellFormedIsClear(stream: Stream, c: Client, call: Call)
    requires forall at: nat :: stream(at).Some? && stream(at).value.Object?
    requires call.UntilCall? ==> forall j :: call.wish(j).Some?
    ensures Clear(stream, c, call) <==>
      (call.UntilCall? && Match(c.events, call.wish).Some? ==>
         var i := Match(c.events, call.wish).value;
         forall k :: 0 <= k < i ==> !Same(c.events[k].body, c.events[i].body))
  {
    if Waiting(c, call).Some? {
      var w := Waiting(c, call).value;
      var r := Raises(stream, c.received, w.0, w.1);
      if r.Some? { assert stream(r.value).Some? && w.0(stream(r.value).value).Some?; }
    }
  }

  lemma WithoutKeeps(events: seq<Arrival>, i: nat, k: nat)
    requires i < |events| && k < |events| - 1
    ensures Without(events, i)[k] == events[if k < i then k else k + 1]
  {
  }

  /** A call keeps the books exact when it is clear. */
  lemma ClearCallKeepsExact(stream: Stream, c: Client, call: Call)
    requires Exact(stream, c) && Clear(stream, c, call)
    ensures Exact(stream, Step(stream, c, call))
  {
    match call {
      case CommandCall(budget) =>
        SameBooks(stream, c, c.(counter := c.counter + 1));
        AwaitKeepsExact(stream, c.(counter := c.counter + 1), Reply(c.counter + 1), budget);
      case UntilCall(wish, budget) =>
        if First(c.events, wish) == |c.events| {
          AwaitKeepsExact(stream, c, wish, budget);
        } else if Match(c.events, wish).Some? {
          var i := Match(c.events, wish).value;
          assert Equal(c.events, c.events[i].body) == i;
          MoveKeepsExact(stream, c, i);
        }
    }
  }

  lemma SameBooks(stream: Stream, c: Client, d: Client)
    requires Exact(stream, c) && d.events == c.events && d.returned == c.returned && d.received == c.received
    ensures Exact(stream, d)
  {
    forall at: nat | at < d.received ensures Buffered(d, at) <==> !Returned(d, at) {
      assert Buffered(d, at) == Buffered(c, at) && Returned(d, at) == Returned(c, at);
    }
  }

  lemma MoveKeepsExact(stream: Stream, c: Client, i: nat)
    requires Exact(stream, c) && i < |c.events|
    ensures Exact(stream, c.(events := Without(c.events, i), returned := c.returned + [c.events[i]]))
  {
    var m := c.events[i];
    var d := c.(events := Without(c.events, i), returned := c.returned + [m]);
    forall k | 0 <= k < |d.events| ensures d.events[k] == c.events[if k < i then k else k + 1] {
      WithoutKeeps(c.events, i, k);
    }
    assert Buffered(c, m.at);
    forall k | 0 <= k < |c.returned| ensures c.returned[k].at != m.at { assert Returned(c, c.returned[k].at); }
    forall at: nat | at < d.received ensures Buffered(d, at) <==> !Returned(d, at) {
      ReturnedAppend(c, m, at);
      BufferedWithout(c, d, i, at);
    }
  }

  lemma BufferedWithout(c: Client, d: Client, i: nat, at: nat)
    requires i < |c.events| && d.events == Without(c.events, i)
    requires forall j, k :: 0 <= j < k < |c.events| ==> c.events[j].at < c.events[k].at
    ensures Buffered(d, at) <==> Buffered(c, at) && at != c.events[i].at
  {
    forall k | 0 <= k < |d.events| ensures d.events[k] == c.events[if k < i then k else k + 1] {
      WithoutKeeps(c.events, i, k);
    }
    if Buffered(c, at) && at != c.events[i].at {
      var k :| 0 <= k < |c.events| && c.events[k].at == at;
      assert d.events[if k < i then k else k - 1].at == at;
    }
  }

  // ---------------------------------------------------------------- the way it goes wrong

  /** A message received, then neither buffered nor returned. */
  ghost predicate Lost(c: Client, at: nat) {
    at < c.received && !Buffered(c, at) && !Returned(c, at)
  }

  /** When an earlier buffered message equals the wanted one without being wanted itself, `remove` deletes that one:
      it is lost, and the returned message stays buffered to be returned again. */
  lemma EqualMessageLoses(stream: Stream, c: Client, wish: Wish, budget: nat) returns (at: nat, again: nat)
    requires Exact(stream, c) && Match(c.events, wish).Some?
    requires var i := Match(c.events, wish).value;
      exists k :: 0 <= k < i && Same(c.events[k].body, c.events[i].body)
    ensures var d := Until(stream, c, wish, budget); Lost(d, at) && Buffered(d, again) && Returned(d, again)
  {
    var i := Match(c.events, wish).value;
    var j := Equal(c.events, c.events[i].body);
    var d := Until(stream, c, wish, budget);
    at, again := c.events[j].at, c.events[i].at;
    assert j < i;
    BufferedWithout(c, d, j, at);
    BufferedWithout(c, d, j, again);
    assert Buffered(c, at) && Buffered(c, again);
    ReturnedAppend(c, c.events[i], at);
    ReturnedAppend(c, c.events[i], again);
  }

  /** A message that makes the call raise is off the socket and nowhere else. */
  lemma {:induction false} RaisingMessageLoses(stream: Stream, c: Client, wish: Wish, budget: nat)
    requires Exact(stream, c) && Raises(stream, c.received, wish, budget).Some?
    ensures Lost(Await(stream, c, wish, budget), Raises(stream, c.received, wish, budget).value)
    decreases budget
  {
    if Verdict(wish, stream(c.received)).None? {
      var d := c.(received := c.received + 1);
      assert forall k :: 0 <= k < |c.events| ==> c.events[k].at < c.received;
      assert forall k :: 0 <= k < |c.returned| ==> c.returned[k].at < c.received;
      assert Await(stream, c, wish, budget) == d;
    } else {
      var m := Taken(stream, c.received);
      KeepKeepsExact(stream, c, m);
      RaisingMessageLoses(stream, c.(received := c.received + 1, events := c.events + [m]), wish, budget - 1);
    }
  }

  /** A call that is not clear loses a message, one way or the other. */
  lemma UnclearCallLoses(stream: Stream, c: Client, call: Call) returns (at: nat)
    requires Exact(stream, c) && !Clear(stream, c, call)
    ensures Lost(Step(stream, c, call), at)
  {
    if Waiting(c, call).Some? {
      var d := if call.CommandCall? then c.(counter := c.counter + 1) else c;
      var w := Waiting(c, call).value;
      SameBooks(stream, c, d);
      RaisingMessageLoses(stream, d, w.0, w.1);
      at := Raises(stream, c.received, w.0, w.1).value;
    } else {
      var again;
      at, again := EqualMessageLoses(stream, c, call.wish, call.budget);
    }
  }

  lemma {:induction false} AwaitKeepsLost(stream: Stream, c: Client, wish: Wish, budget: nat, at: nat)
    requires Lost(c, at)
    ensures Lost(Await(stream, c, wish, budget), at)
    decreases budget
  {
    if budget > 0 && Verdict(wish, stream(c.received)) == Some(false) {
      var m := Taken(stream, c.received);
      AwaitKeepsLost(stream, c.(received := c.received + 1, events := c.events + [m]), wish, budget - 1, at);
    }
  }

  lemma StepKeepsLost(stream: Stream, c: Client, call: Call, at: nat)
    requires Lost(c, at)
    ensures Lost(Step(stream, c, call), at)
  {
    match call {
      case CommandCall(budget) =>
        AwaitKeepsLost(stream, c.(counter := c.counter + 1), Reply(c.counter + 1), budget, at);
      case UntilCall(wish, budget) =>
        if First(c.events, wish) == |c.events| {
          AwaitKeepsLost(stream, c, wish, budget, at);
        } else if Match(c.events, wish).Some? {
          var i := Match(c.events, wish).value;
          assert Buffered(c, c.events[i].at);
        }
    }
  }

  /** Every call of a run is clear when it is made. */
  ghost predicate AllClear(stream: Stream, calls: seq<Call>) {
    forall n :: 0 <= n < |calls| ==> Clear(stream, Run(stream, calls[..n]), calls[n])
  }

  /** Over any run of commands and waits, the messages received are exactly those returned and those buffered, each
      once and in order of arrival, if and only if every call was clear. */
  lemma {:induction false} ExactIffClear(stream: Stream, calls: seq<Call>) returns (at: nat)
    ensures Exact(stream, Run(stream, calls)) <==> AllClear(stream, calls)
    ensures !AllClear(stream, calls) ==> Lost(Run(stream, calls), at)
  {
    at := 0;
    if calls != [] {
      var front, call := calls[..|calls| - 1], calls[|calls| - 1];
      at := ExactIffClear(stream, front);
      forall n | 0 <= n < |front| ensures front[..n] == calls[..n] && front[n] == calls[n] { }
      var c := Run(stream, front);
      AllClearAppend(stream, front, call);
      assert calls == front + [call];
      if !AllClear(stream, front) {
        StepKeepsLost(stream, c, call, at);
      } else if Clear(stream, c, call) {
        ClearCallKeepsExact(stream, c, call);
      } else {
        at := UnclearCallLoses(stream, c, call);
      }
      LostIsNotExact(stream, Run(stream, calls), at);
    }
  }

  lemma LostIsNotExact(stream: Stream, c: Client, at: nat)
    ensures Lost(c, at) ==> !Exact(stream, c)
  {
  }

  lemma AllClearAppend(stream: Stream, front: seq<Call>, call: Call)
    ensures AllClear(stream, front + [call]) <==> AllClear(stream, front) && Clear(stream, Run(stream, front), call)
  {
    var calls := front + [call];
    assert calls[..|front|] == front;
    forall n | 0 <= n < |front| ensures calls[..n] == front[..n] && calls[n] == front[n] { }
    if AllClear(stream, calls) {
      forall n | 0 <= n < |front| ensures Clear(stream, Run(stream, front[..n]), front[n]) {
        assert Clear(stream, Run(stream, calls[..n]), calls[n]);
      }
      assert Clear(stream, Run(stream, calls[..|front|]), calls[|front|]);
    }
  }

  /** With exact books, a wait that returns something returns the earliest message received, and not yet returned,
      that is wanted. */
  lemma UntilReturnsEarliest(stream: Stream, c: Client, wish: Wish, budget: nat)
    requires Exact(stream, c)
    ensures var d := Until(stream, c, wish, budget);
      |d.returned| > |c.returned| ==>
        var m := d.returned[|c.returned|];
        wish(m.body) == Some(true) && stream(m.at) == Some(m.body) && m.at < d.received && !Returned(c, m.at)
        && forall at: nat :: at < m.at && !Returned(c, at) ==> Verdict(wish, stream(at)) == Some(false)
  {
    if Match(c.events, wish).Some? {
      var i := Match(c.events, wish).value;
      assert Buffered(c, c.events[i].at);
      assert forall k :: 0 <= k < |c.events| && c.events[k].at < c.events[i].at ==> k < i;
      forall at: nat | at < c.events[i].at && !Returned(c, at) ensures Verdict(wish, stream(at)) == Some(false) {
        assert Buffered(c, at);
        var k :| 0 <= k < |c.events| && c.events[k].at == at;
        assert k < i;
      }
    } else if First(c.events, wish) == |c.events| {
      forall at: nat | at < c.received && !Returned(c, at) ensures Verdict(wish, stream(at)) == Some(false) {
        assert Buffered(c, at);
        var k :| 0 <= k < |c.events| && c.events[k].at == at;
      }
      forall at: nat | at >= c.received ensures !Returned(c, at) { }
      AwaitReturnsFirst(stream, c, wish, budget);
    }
  }

  lemma {:induction false} AwaitReturnsFirst(stream: Stream, c: Client, wish: Wish, budget: nat)
    ensures var d := Await(stream, c, wish, budget);
      && |c.returned| <= |d.returned| <= |c.returned| + 1
      && (|d.returned| > |c.returned| ==>
            var m := d.returned[|c.returned|];
            wish(m.body) == Some(true) && c.received <= m.at < d.received && stream(m.at) == Some(m.body)
            && forall at: nat :: c.received <= at < m.at ==> Verdict(wish, stream(at)) == Some(false))
    decreases budget
  {
    if budget > 0 && Verdict(wish, stream(c.received)) == Some(false) {
      var m := Taken(stream, c.received);
      AwaitReturnsFirst(stream, c.(received := c.received + 1, events := c.events + [m]), wish, budget - 1);
    }
  }

  /** These frames are all unwanted. */
  ghost predicate Skips(stream: Stream, wish: Wish, from: nat, to: nat) {
    forall at: nat :: from <= at < to ==> Verdict(wish, stream(at)) == Some(false)
  }

  /** The buffer with these frames behind it. */
  ghost predicate Joins(stream: Stream, events: seq<Arrival>, from: nat, to: nat, after: seq<Arrival>) {
    && from <= to && |after| == |events| + (to - from) && after[..|events|] == events
    && forall k :: |events| <= k < |after| ==>
         after[k].at == from + k - |events| && stream(after[k].at) == Some(after[k].body)
  }

  /** How a wait goes: the frames before `next` are unwanted and join the buffer in order; `next` is returned or raises,
      unless the budget is spent there. */
  lemma {:induction false} AwaitIsExact(stream: Stream, c: Client, wish: Wish, budget: nat) returns (next: nat)
    ensures c.received <= next <= c.received + budget && Skips(stream, wish, c.received, next)
    ensures var d := Await(stream, c, wish, budget);
      && d.counter == c.counter && Joins(stream, c.events, c.received, next, d.events)
      && if next == c.received + budget then d.received == next && d.returned == c.returned
         else
           && Verdict(wish, stream(next)) != Some(false) && d.received == next + 1
           && d.returned == c.returned
                + if Verdict(wish, stream(next)) == Some(true) then [Arrival(next, stream(next).value)] else []
    decreases budget
  {
    hide Joins, Skips;
    next := c.received;
    SkipNone(stream, wish, next, c.events);
    assert c.returned + [] == c.returned;
    if budget > 0 && Verdict(wish, stream(c.received)) == Some(false) {
      var m := Taken(stream, c.received);
      next := AwaitIsExact(stream, c.(received := c.received + 1, events := c.events + [m]), wish, budget - 1);
      SkipOne(stream, wish, c.received, next, c.events, m, Await(stream, c, wish, budget).events);
    }
  }

  lemma SkipNone(stream: Stream, wish: Wish, at: nat, events: seq<Arrival>)
    ensures Skips(stream, wish, at, at) && Joins(stream, events, at, at, events)
  {
  }

  lemma SkipOne(stream: Stream, wish: Wish, from: nat, to: nat, events: seq<Arrival>, m: Arrival, after: seq<Arrival>)
    requires stream(from) == Some(m.body) && m.at == from && Verdict(wish, stream(from)) == Some(false)
    requires Skips(stream, wish, from + 1, to) && Joins(stream, events + [m], from + 1, to, after)
    ensures Skips(stream, wish, from, to) && Joins(stream, events, from, to, after)
  {
    assert after[|events|] == after[..|events| + 1][|events|] == m;
    assert after[..|events|] == after[..|events| + 1][..|events|];
  }

  /** The frame is wanted, and none from `from` on is wanted or raises before it. */
  ghost predicate Serves(stream: Stream, wish: Wish, from: nat, at: nat) {
    from <= at && Verdict(wish, stream(at)) == Some(true) && Skips(stream, wish, from, at)
  }

  /** A wait returns a message exactly when it is the first that is not unwanted, is wanted, and lies within the budget;
      otherwise it returns nothing. */
  lemma AwaitServesIff(stream: Stream, c: Client, wish: Wish, budget: nat)
    ensures var d := Await(stream, c, wish, budget);
      && (d.returned == c.returned
          || exists at :: c.received <= at < c.received + budget && Serves(stream, wish, c.received, at))
      && forall at :: c.received <= at < c.received + budget && Serves(stream, wish, c.received, at) ==>
         d.returned == c.returned + [Arrival(at, stream(at).value)]
  {
    hide Await, Joins;
    var next := AwaitIsExact(stream, c, wish, budget);
    if next < c.received + budget && Verdict(wish, stream(next)) == Some(true) {
      assert Serves(stream, wish, c.received, next);
    }
  }

  /** The frame carries this request identifier. */
  predicate Carries(frame: Option<Json>, id: string) {
    && frame.Some? && frame.value.Object? && "request_id" in frame.value.fields
    && frame.value.fields["request_id"] == Text(id)
  }

  /** The frame is the first to carry the identifier, with only objects before it. */
  ghost predicate RepliesAt(stream: Stream, from: nat, id: string, at: nat) {
    && from <= at && Carries(stream(at), id)
    && forall k: nat :: from <= k < at ==> stream(k).Some? && stream(k).value.Object? && !Carries(stream(k), id)
  }

  lemma RepliesServe(stream: Stream, from: nat, counter: nat, at: nat)
    ensures Serves(stream, Reply(counter), from, at) <==> RepliesAt(stream, from, Decimal(counter), at)
  {
    hide Decimal;
  }

  /** A command takes the next identifier and returns exactly the first message that carries it, provided it comes in
      time with only objects before it; otherwise it returns nothing. */
  lemma CommandReturnsItsReply(stream: Stream, c: Client, budget: nat) returns (reply: nat)
    ensures var d := Command(stream, c, budget); var id := Decimal(c.counter + 1);
      && d.counter == c.counter + 1
      && (d.returned == c.returned
          || (c.received <= reply < c.received + budget && RepliesAt(stream, c.received, id, reply)))
      && forall at :: c.received <= at < c.received + budget && RepliesAt(stream, c.received, id, at) ==>
         d.returned == c.returned + [Arrival(at, stream(at).value)]
  {
    hide Await, Joins, Serves, RepliesAt;
    var started := c.(counter := c.counter + 1);
    var wish, id := Reply(started.counter), Decimal(started.counter);
    forall at: nat ensures Serves(stream, wish, c.received, at) <==> RepliesAt(stream, c.received, id, at) {
      RepliesServe(stream, c.received, started.counter, at);
    }
    AwaitServesIff(stream, started, wish, budget);
    reply := AwaitIsExact(stream, started, wish, budget);
    var d := Await(stream, started, wish, budget);
    if d.returned != c.returned {
      reply :| c.received <= reply < c.received + budget && Serves(stream, wish, c.received, reply);
    }
  }

  /** The buffered messages before this one are all unwanted. */
  ghost predicate Unwanted(events: seq<Arrival>, wish: Wish, to: nat) {
    to <= |events| && forall k :: 0 <= k < to ==> wish(events[k].body) == Some(false)
  }

  /** A wait looks at the buffer first: the first message there that is not unwanted is returned if it is wanted, and
      ends the call with nothing changed if its test raises. With nothing but unwanted messages the socket decides. */
  lemma UntilServes(stream: Stream, c: Client, wish: Wish, budget: nat)
    ensures var d := Until(stream, c, wish, budget);
      && (forall i: nat :: Unwanted(c.events, wish, i) && i < |c.events| && wish(c.events[i].body) == Some(true) ==>
            d.returned == c.returned + [c.events[i]])
      && (forall i: nat :: Unwanted(c.events, wish, i) && i < |c.events| && wish(c.events[i].body) == None ==> d == c)
      && (Unwanted(c.events, wish, |c.events|) ==> d == Await(stream, c, wish, budget))
  {
    hide Await, First;
    var i := First(c.events, wish);
    forall k: nat | Unwanted(c.events, wish, k) && k < |c.events| && wish(c.events[k].body) != Some(false)
      ensures k == i
    {
      FirstIs(c.events, wish, k);
    }
  }

  // ---------------------------------------------------------------- a run that loses a message

  const ONE := Object(map["v" := Number(1)])
  const YES := Object(map["v" := Bool(true)])
  const OK := Object(map["request_id" := Text("1")])

  function Socket(n: nat): Option<Json> { Some(if n == 0 then ONE else if n == 1 then YES else OK) }

  function IsTrue(j: Json): Option<bool> { Some(j == YES) }

  lemma OneEqualsTrue()
    ensures Same(ONE, YES) && ONE != YES
  {
    var one, yes := Canonical(ONE), Canonical(YES);
    assert one.fields["v"] == Float(1.0) == yes.fields["v"] && one.fields.Keys == {"v"} == yes.fields.Keys;
    assert one == yes;
  }

  lemma OnlyTheThirdAnswers()
    ensures Answers(ONE, 1) == Some(false) == Answers(YES, 1) && Answers(OK, 1) == Some(true)
    ensures IsTrue(ONE) == Some(false) && IsTrue(YES) == Some(true)
  {
    OneEqualsTrue();
    assert Decimal(1) == "1";
    assert "request_id" !in ONE.fields && "request_id" !in YES.fields;
  }

  /** The command buffers both events before its reply arrives. */
  lemma CommandBuffersBoth()
    ensures Command(Socket, NEW, 3) == Client(1, [Arrival(0, ONE), Arrival(1, YES)], 3, [Arrival(2, OK)])
  {
    hide Answers, Decimal;
    OnlyTheThirdAnswers();
    var d0 := Client(1, [], 0, []);
    var d1 := Client(1, [Arrival(0, ONE)], 1, []);
    var d2 := Client(1, [Arrival(0, ONE), Arrival(1, YES)], 2, []);
    var d3 := Client(1, [Arrival(0, ONE), Arrival(1, YES)], 3, [Arrival(2, OK)]);
    assert d2.returned + [Arrival(2, OK)] == d3.returned;
    assert Await(Socket, d2, Reply(1), 1) == d3;
    assert d1.events + [Arrival(1, YES)] == d2.events;
    assert Await(Socket, d1, Reply(1), 2) == Await(Socket, d2, Reply(1), 1);
    assert d0.events + [Arrival(0, ONE)] == d1.events;
    assert Await(Socket, d0, Reply(1), 3) == Await(Socket, d1, Reply(1), 2);
  }

  /** With both buffered, waiting for `true` takes it and deletes `1`. */
  lemma WaitingDeletesOne(c: Client)
    requires c.events == [Arrival(0, ONE), Arrival(1, YES)]
    ensures Until(Socket, c, IsTrue, 0) == c.(events := [Arrival(1, YES)], returned := c.returned + [Arrival(1, YES)])
  {
    hide Same, Canonical, First;
    OneEqualsTrue();
    assert IsTrue(ONE) == Some(false) && IsTrue(YES) == Some(true);
    FirstIs(c.events, IsTrue, 1);
    assert Equal(c.events, YES) == 0;
    assert Without(c.events, 0) == [Arrival(1, YES)];
  }

  /** `1` and `true` are equal to Python: waiting for the second deletes the first. */
  lemma EqualButDifferentLoses()
    ensures Same(ONE, YES) && ONE != YES
    ensures var c := Run(Socket, [CommandCall(3), UntilCall(IsTrue, 0)]);
      c.returned == [Arrival(2, OK), Arrival(1, YES)] && c.events == [Arrival(1, YES)] && Lost(c, 0)
  {
    hide Same, Command, Until, Canonical, Await;
    OneEqualsTrue();
    CommandBuffersBoth();
    var calls := [CommandCall(3), UntilCall(IsTrue, 0)];
    assert calls[..1] == [CommandCall(3)] && calls[..1][..0] == [];
    var c1 := Command(Socket, NEW, 3);
    assert Run(Socket, calls[..1]) == c1;
    WaitingDeletesOne(c1);
    var c := Run(Socket, calls);
    assert c == Step(Socket, c1, calls[1]);
    assert c.returned == [Arrival(2, OK), Arrival(1, YES)];
    assert c.returned[0].at == 2 && c.returned[1].at == 1 && c.events[0].at == 1;
  }

  /** A list on the socket: the command it reaches raises on `get`, and the list is gone. */
  lemma ListIsLost()
    ensures Lost(Run(n => Some(if n == 0 then List([]) else OK), [CommandCall(2)]), 0)
  {
    var stream: Stream := n => Some(if n == 0 then List([]) else OK);
    assert [CommandCall(2)][..0] == [];
    assert Verdict(Reply(1), stream(0)) == None;
    assert Run(stream, [CommandCall(2)]) == Client(1, [], 1, []);
  }

  // ---------------------------------------------------------------- the client object

  /** How a call ends. */
  datatype Ending = Got(message: Json) | TimedOut | Raised

  /** One receive. */
  lemma AwaitStep(stream: Stream, c: Client, wish: Wish, budget: nat)
    requires budget > 0
    ensures var d := c.(received := c.received + 1);
      match Verdict(wish, stream(c.received))
      case None =>
        Await(stream, c, wish, budget) == d && Raises(stream, c.received, wish, budget) == Some(c.received)
      case Some(true) =>
        && Await(stream, c, wish, budget) == d.(returned := d.returned + [Taken(stream, c.received)])
        && Raises(stream, c.received, wish, budget) == None
      case Some(false) =>
        var e := d.(events := d.events + [Taken(stream, c.received)]);
        && Await(stream, c, wish, budget) == Await(stream, e, wish, budget - 1)
        && Raises(stream, c.received, wish, budget) == Raises(stream, d.received, wish, budget - 1)
  {
  }

  lemma AwaitEnds(stream: Stream, c: Client, wish: Wish)
    ensures Await(stream, c, wish, 0) == c && Raises(stream, c.received, wish, 0) == None
  {
  }

  class LabClient {
    const stream: Stream
    var counter: nat
    var events: seq<Arrival>
    var received: nat
    ghost var returned: seq<Arrival>

    ghost function Now(): Client
      reads this
    {
      Client(counter, events, received, returned)
    }

    constructor (stream: Stream)
      ensures Now() == NEW && this.stream == stream
    {
      this.stream, counter, events, received, returned := stream, 0, [], 0, [];
    }

    /** The receive loop of `command`. */
    method SendCommand(budget: nat) returns (r: Ending)
      modifies this
      ensures Now() == Command(stream, old(Now()), budget)
      ensures r.Got? <==> |returned| > |old(returned)|
      ensures r.Got? ==> r.message == returned[|old(returned)|].body
      ensures r.Raised? <==> Raises(stream, old(received), Reply(counter), budget).Some?
    {
      hide Await, Raises, Answers;
      counter := counter + 1;
      ghost var start := Now();
      var left := budget;
      while left > 0
        invariant counter == old(counter) + 1 && returned == old(returned)
        invariant Await(stream, Now(), Reply(counter), left) == Await(stream, start, Reply(counter), budget)
        invariant Raises(stream, received, Reply(counter), left)
          == Raises(stream, start.received, Reply(counter), budget)
      {
        AwaitStep(stream, Now(), Reply(counter), left);
        var frame := stream(received);
        received := received + 1;
        if frame.None? { return Raised; }
        var m := Arrival(received - 1, frame.value);
        var answers := Answers(m.body, counter);
        if answers.None? { return Raised; }
        if answers.value {
          returned := returned + [m];
          return Got(m.body);
        }
        events := events + [m];
        left := left - 1;
      }
      AwaitEnds(stream, Now(), Reply(counter));
      r := TimedOut;
    }

    /** The receive loop of `until`. */
    method Receive(wish: Wish, budget: nat) returns (r: Ending)
      modifies this
      ensures Now() == Await(stream, old(Now()), wish, budget)
      ensures r.Got? <==> |returned| > |old(returned)|
      ensures r.Got? ==> r.message == returned[|old(returned)|].body
      ensures r.Raised? <==> Raises(stream, old(received), wish, budget).Some?
    {
      hide Await, Raises;
      ghost var start := Now();
      var left := budget;
      while left > 0
        invariant returned == old(returned)
        invariant Await(stream, Now(), wish, left) == Await(stream, start, wish, budget)
        invariant Raises(stream, received, wish, left) == Raises(stream, start.received, wish, budget)
      {
        AwaitStep(stream, Now(), wish, left);
        var frame := stream(received);
        received := received + 1;
        if frame.None? { return Raised; }
        var m := Arrival(received - 1, frame.value);
        var wanted := wish(m.body);
        if wanted.None? { return Raised; }
        if wanted.value {
          returned := returned + [m];
          return Got(m.body);
        }
        events := events + [m];
        left := left - 1;
      }
      AwaitEnds(stream, Now(), wish);
      r := TimedOut;
    }

    /** `until`: the buffer first, then the socket. */
    method WaitUntil(wish: Wish, budget: nat) returns (r: Ending)
      modifies this
      ensures Now() == Until(stream, old(Now()), wish, budget)
      ensures r.Got? <==> |returned| > |old(returned)|
      ensures r.Got? ==> r.message == returned[|old(returned)|].body
      ensures r.Raised? <==>
        if First(old(events), wish) < |old(events)| then Match(old(events), wish).None?
        else Raises(stream, old(received), wish, budget).Some?
    {
      hide Await, Raises, First, Equal, Without;
      var i := 0;
      while i < |events|
        invariant 0 <= i <= |events| && Now() == old(Now())
        invariant forall k :: 0 <= k < i ==> wish(events[k].body) == Some(false)
      {
        var wanted := wish(events[i].body);
        if wanted != Some(false) { FirstIs(events, wish, i); }
        if wanted.None? { return Raised; }
        if wanted.value {
          var m := events[i];
          events := Without(events, Equal(events, m.body));
          returned := returned + [m];
          return Got(m.body);
        }
        i := i + 1;
      }
      FirstIs(events, wish, |events|);
      r := Receive(wish, budget);
    }
  }

  lemma FirstIs(events: seq<Arrival>, wish: Wish, i: nat)
    requires i <= |events| && (i < |events| ==> wish(events[i].body) != Some(false))
    requires forall k :: 0 <= k < i ==> wish(events[k].body) == Some(false)
    ensures First(events, wish) == i
  {
  }
}
