/** What a command does, told from the state before it: who may cancel and what that returns, when a new order is
    refused and why, what an accepted one leaves behind, and the daily limit over whole runs. */
module CommandEffects {
  import opened Wrappers
  import opened Exchange
  import opened Ledger
  import opened Evolution
  import opened Priority
  import opened Expiry

  /** The command's answer is recorded and no other answer changes. */
  ghost predicate AnswersWith(s: State, t: State, c: Command, o: Outcome) {
    && t.results.Keys == s.results.Keys + {c.seqno} && t.results[c.seqno] == o
    && forall q :: q in s.results && q != c.seqno ==> t.results[q] == s.results[q]
  }

  lemma OpeningFacts(s: State, c: Command)
    requires Wf(s) && Admissible(s, c)
    ensures var u, day := Opened(s, c), DayOf(c.timestamp);
      && Wf(u) && u.ids == s.ids && u.trades == s.trades && u.daily == s.daily && u.results == s.results
      && u.settings == s.settings && u.orders.Keys == s.orders.Keys && u.lastSeq == c.seqno
      && (forall id :: id in s.orders ==> u.orders[id] == Expired(s.orders[id], day))
      && (forall id :: id in u.orders ==> u.orders[id].seqno < c.seqno)
  {
    hide Expire, Wf;
    CursorKeepsWf(s, c);
    OpenedIsWf(s, c);
    DayExpiryIsExact(s.(lastSeq := c.seqno, lastTimestamp := c.timestamp), DayOf(c.timestamp));
  }

  // ---------------------------------------------------------------- cancellation

  /** Order `o` has been called off: closed for that reason, and its reservation is available again. */
  ghost predicate CalledOff(u: State, t: State, id: string, o: Order) {
    && t.orders[id := o] == u.orders[id := o] && id in t.orders
    && t.orders[id] == o.(status := Canceled, reason := UserCancel)
    && t.accounts.Keys == u.accounts.Keys && o.Line() in u.accounts
    && forall h :: h in u.accounts ==>
         t.accounts[h] == if h == o.Line()
           then Balance(u.accounts[h].available + o.Amount(), u.accounts[h].held - o.Amount())
                          else u.accounts[h]
  }

  /** A cancellation closes the sender's own working order and returns what it had reserved; a foreign or unknown order,
      a filled one and one already cancelled are answered as such and nothing moves. Orders of other days have expired
      first. */
  lemma CancelIsExact(s: State, c: Command)
    requires Wf(s) && Reduce(s, c).Some? && c.body.Cancel?
    ensures var u, t, id := Opened(s, c), Reduce(s, c).value, c.body.orderId;
      && t.ids == s.ids && t.trades == s.trades && t.daily == s.daily && t.orders.Keys == s.orders.Keys
      && (forall x :: x in s.orders && x != id ==> t.orders[x] == Expired(s.orders[x], DayOf(c.timestamp)))
      && if id !in s.orders || s.orders[id].owner != c.owner then
           t.orders == u.orders && t.accounts == u.accounts && AnswersWith(s, t, c, Rejected(id, OwnedOrderNotFound))
         else
           var o := Expired(s.orders[id], DayOf(c.timestamp));
           if o.Active() then CalledOff(u, t, id, o) && AnswersWith(s, t, c, Accepted(id, Canceled))
           else
             && t.orders == u.orders && t.accounts == u.accounts && t.orders[id] == o
             && AnswersWith(s, t, c, if o.status.Filled? then Rejected(id, OrderAlreadyFilled)
                else Accepted(id, Canceled))
  {
    hide Opened, Wf, Expired, DoCancel, CalledOff;
    CancelKeepsOwner(s, c);
    OpeningFacts(s, c);
    DecidedCancel(Opened(s, c), c);
  }

  lemma DecidedCancel(u: State, c: Command)
    requires Wf(u) && c.body.Cancel?
    ensures var t, id := DoCancel(u, c), c.body.orderId;
      && t.ids == u.ids && t.trades == u.trades && t.daily == u.daily && t.orders.Keys == u.orders.Keys
      && (forall x :: x in u.orders && x != id ==> t.orders[x] == u.orders[x])
      && if id !in u.orders || u.orders[id].owner != c.owner then
           t.orders == u.orders && t.accounts == u.accounts && AnswersWith(u, t, c, Rejected(id, OwnedOrderNotFound))
         else if u.orders[id].Active() then
           CalledOff(u, t, id, u.orders[id]) && AnswersWith(u, t, c, Accepted(id, Canceled))
         else
           && t.orders == u.orders && t.accounts == u.accounts
           && AnswersWith(u, t, c,
                          if u.orders[id].status.Filled? then Rejected(id, OrderAlreadyFilled)
                            else Accepted(id, Canceled))
  {
    hide Wf;
    var id := c.body.orderId;
    if id in u.orders && u.orders[id].owner == c.owner && u.orders[id].Active() { LineOfOrder(u, id); }
  }

  lemma CancelKeepsOwner(s: State, c: Command)
    requires Reduce(s, c).Some?
    ensures Admissible(s, c)
    ensures forall id :: id in s.orders ==> Expired(s.orders[id], DayOf(c.timestamp)).owner == s.orders[id].owner
  {
  }

  lemma LineOfOrder(s: State, id: string)
    requires Wf(s) && id in s.orders
    ensures s.orders[id].Line() in s.accounts
  {
    assert OrderOk(s.settings, s.lastSeq, id, s.orders[id]);
  }

  // ---------------------------------------------------------------- the session

  /** Day 0 was a Thursday; Monday counts as 0. */
  function Weekday(day: nat): nat {
    if day == 0 then 3 else (Weekday(day - 1) + 1) % 7
  }

  lemma {:induction false} WeekdayIs(day: nat)
    ensures Weekday(day) == (day + 3) % 7
  {
    if day > 0 { WeekdayIs(day - 1); }
  }

  predicate AtMoment(timestamp: int, day: nat, minute: nat, second: nat) {
    timestamp == 86400 * day + 60 * minute + second && minute < 1440 && second < 60
  }

  /** The moment, as day, minute and second, lies on a trading day from the first minute on and before the last. */
  ghost predicate Trading(timestamp: int, session: Session) {
    exists day: nat, minute: nat, second: nat ::
      && AtMoment(timestamp, day, minute, second)
      && Weekday(day) in session.weekdays && session.startMinute <= minute < session.endMinute
  }

  lemma SessionIsTrading(timestamp: nat, session: Session)
    ensures SessionPermits(timestamp, session) <==> Trading(timestamp, session)
  {
    var day, minute, second := timestamp / 86400, (timestamp % 86400) / 60, timestamp % 60;
    assert AtMoment(timestamp, day, minute, second);
    WeekdayIs(day);
    if Trading(timestamp, session) {
      var d: nat, m: nat, q: nat :|
        && AtMoment(timestamp, d, m, q)
        && Weekday(d) in session.weekdays && session.startMinute <= m < session.endMinute;
      assert d == day && m == minute;
    }
  }

  // ---------------------------------------------------------------- new orders

  /** What a new order must reserve, and on which line. */
  function Needed(b: Body): int
    requires b.New?
  {
    if b.side.Buy? then b.quantity * b.price else b.quantity
  }

  function Source(b: Body, owner: string): Holding
    requires b.New?
  {
    if b.side.Buy? then Cash(owner) else Shares(owner, b.symbol)
  }

  /** A new order is accepted if and only if its identifier is new, its symbol known, the session open, the day's volume
      within the limit and the funds there; otherwise the first of these that fails is the answer, and but for expiry
      nothing changes. */
  lemma NewIsRefusedIff(s: State, c: Command)
    requires Wf(s) && Reduce(s, c).Some? && c.body.New?
    ensures var u, t, b := Opened(s, c), Reduce(s, c).value, c.body; var id := b.orderId;
      && c.seqno in t.results
      && (b.symbol in s.settings.symbols ==> Source(b, c.owner) in u.accounts)
      && var over := Usage(s, c.owner, b.symbol, DayOf(c.timestamp)) + b.quantity > s.settings.dailyLimit;
         var why := if id in s.orders then Some(OrderIdExists)
                    else if b.symbol !in s.settings.symbols then Some(UnknownSymbol)
                    else if !Trading(c.timestamp, s.settings.session) then Some(SessionClosed)
                    else if over then Some(DailySubmittedVolumeLimit)
                    else if u.accounts[Source(b, c.owner)].available >= Needed(b) then None
                    else if b.side.Buy? then Some(InsufficientCash) else Some(InsufficientShares);
         && (t.results[c.seqno].Accepted? <==> why.None?)
         && (why.Some? ==>
               && AnswersWith(s, t, c, Rejected(id, why.value))
               && t.orders == u.orders && t.accounts == u.accounts && t.trades == s.trades && t.ids == s.ids
               && t.daily == s.daily)
  {
    hide Opened, Wf, Match, SessionPermits, Trading;
    CancelKeepsOwner(s, c);
    OpeningFacts(s, c);
    NewLine(s, c);
    SessionIsTrading(c.timestamp, s.settings.session);
  }

  lemma NewLine(s: State, c: Command)
    requires Wf(s) && Reduce(s, c).Some? && c.body.New?
    ensures c.timestamp >= 0
    ensures c.body.symbol in s.settings.symbols ==> Source(c.body, c.owner) in Opened(s, c).accounts
  {
    hide Expire;
    OpenedIsWf(s, c);
  }

  /** What the sender asked for, entered under the command's number and time. */
  predicate AsAsked(o: Order, c: Command)
    requires c.body.New?
  {
    var b := c.body;
    && o.requestId == b.requestId && o.orderId == b.orderId && o.symbol == b.symbol && o.side == b.side
    && o.price == b.price && o.quantity == b.quantity && o.owner == c.owner && o.seqno == c.seqno
    && o.timestamp == c.timestamp && o.day == DayOf(c.timestamp)
  }

  /** The trades made since are this command's. */
  ghost predicate TradesOf(s: State, t: State, c: Command)
    requires c.body.New?
  {
    && s.trades <= t.trades
    && forall k :: |s.trades| <= k < |t.trades| ==>
         var e := t.trades[k];
         && e.seqno == c.seqno && e.timestamp == c.timestamp && e.symbol == c.body.symbol
         && (if c.body.side.Buy? then e.buyOrder else e.sellOrder) == c.body.orderId
  }

  /** An accepted order is in the book as asked, the answer names the status matching left it in, the day's volume
      counts it, its trades bear its mark, and every other order has only expired or been executed against. */
  lemma NewIsEntered(s: State, c: Command)
    requires Wf(s) && Reduce(s, c).Some? && c.body.New? && Reduce(s, c).value.results[c.seqno].Accepted?
    requires c.seqno in Reduce(s, c).value.results
    ensures var t, id, day := Reduce(s, c).value, c.body.orderId, DayOf(c.timestamp);
      && id !in s.orders && t.orders.Keys == s.orders.Keys + {id} && t.ids == s.ids + [id]
      && AsAsked(t.orders[id], c) && AnswersWith(s, t, c, Accepted(id, t.orders[id].status))
      && t.daily == s.daily[(c.owner, c.body.symbol, day) := Usage(s, c.owner, c.body.symbol, day) + c.body.quantity]
      && TradesOf(s, t, c)
      && forall x :: x in s.orders ==> OnlyExecuted(Expired(s.orders[x], day), t.orders[x])
  {
    hide Opened, Wf, Enter, Match, Refusal, Expired, OnlyExecuted, TradesOf, AsAsked;
    CancelKeepsOwner(s, c);
    AdmissibleFields(s, c);
    OpeningFacts(s, c);
    AcceptedIsUnrefused(s, c);
    EnteredThenMatched(Opened(s, c), c);
    var u := Match(Enter(Opened(s, c), c), c.body.orderId, 0);
    SameTradesOf(Opened(s, c), s, u, Reduce(s, c).value, c);
  }

  lemma EnteredThenMatched(u: State, c: Command)
    requires Wf(u) && c.body.New? && Refusal(u, c).None? && c.body.orderId !in u.orders
    requires c.owner in u.settings.owners && c.body.price > 0 && c.body.quantity > 0
    requires u.lastSeq == c.seqno && forall id :: id in u.orders ==> u.orders[id].seqno < c.seqno
    ensures var id, day := c.body.orderId, DayOf(c.timestamp); var t := Match(Enter(u, c), id, 0);
      && t.orders.Keys == u.orders.Keys + {id} && t.ids == u.ids + [id] && t.results == u.results
      && AsAsked(t.orders[id], c) && TradesOf(u, t, c)
      && t.daily == u.daily[(c.owner, c.body.symbol, day) := Usage(u, c.owner, c.body.symbol, day) + c.body.quantity]
      && forall x :: x in u.orders ==> OnlyExecuted(u.orders[x], t.orders[x])
  {
    hide Wf, Enter, Match, Refusal, OnlyExecuted, Working, Advances, TradesOf, AsAsked, Marked, Evolves;
    var v, id := Enter(u, c), c.body.orderId;
    EnterKeepsWf(u, c);
    EnteredFacts(u, c);
    MatchEvolves(v, id, 0);
    EvolvingOrders(v, Match(v, id, 0), v.orders[id].seqno, 0);
    MatchKeepsFrame(v, id, 0);
    MatchMarks(v, id, 0);
    AskedStays(v.orders[id], Match(v, id, 0).orders[id], c);
    TradesAreMarked(u, v, Match(v, id, 0), c);
    OthersOnlyExecute(u, v, id);
  }

  lemma OthersOnlyExecute(u: State, v: State, id: string)
    requires Wf(v) && Working(v, id) && id !in u.orders && v.orders == u.orders[id := v.orders[id]]
    ensures forall x :: x in u.orders ==> OnlyExecuted(u.orders[x], Match(v, id, 0).orders[x])
  {
    hide Wf, Working, OnlyExecuted, Match;
    forall x | x in u.orders ensures OnlyExecuted(u.orders[x], Match(v, id, 0).orders[x]) {
      MatchOnlyExecutes(v, id, 0, x);
    }
  }

  lemma SameTradesOf(s: State, s': State, u: State, t: State, c: Command)
    requires c.body.New? && TradesOf(s, u, c) && t.trades == u.trades && s'.trades == s.trades
    ensures TradesOf(s', t, c)
  {
  }

  lemma AcceptedIsUnrefused(s: State, c: Command)
    requires Reduce(s, c).Some? && c.body.New? && c.seqno in Reduce(s, c).value.results
    requires Reduce(s, c).value.results[c.seqno].Accepted?
    ensures Refusal(Opened(s, c), c).None? && c.body.orderId !in Opened(s, c).orders
    ensures var u := Match(Enter(Opened(s, c), c), c.body.orderId, 0);
      Reduce(s, c).value == Answer(u, c, Accepted(c.body.orderId, u.orders[c.body.orderId].status))
  {
    hide Opened, Match;
  }

  lemma EnteredFacts(u: State, c: Command)
    requires c.body.New? && c.body.orderId !in u.orders
    ensures var v, id := Enter(u, c), c.body.orderId;
      && v.orders == u.orders[id := v.orders[id]] && id in v.orders && AsAsked(v.orders[id], c) && v.ids == u.ids + [id]
      && v.trades == u.trades && v.results == u.results
      && v.daily == u.daily[(c.owner, c.body.symbol, DayOf(c.timestamp)) :=
                              Usage(u, c.owner, c.body.symbol, DayOf(c.timestamp)) + c.body.quantity]
  {
  }

  lemma AskedStays(a: Order, b: Order, c: Command)
    requires c.body.New? && AsAsked(a, c) && Advances(a, b)
    ensures AsAsked(b, c)
  {
  }

  /** Trades of one matching loop name the incoming order and bear its number, time and symbol. */
  ghost predicate Marked(s: State, t: State, id: string)
    requires id in s.orders
  {
    && s.trades <= t.trades
    && forall k :: |s.trades| <= k < |t.trades| ==> MarkedTrade(t.trades[k], s.orders[id], id)
  }

  predicate MarkedTrade(e: Trade, o: Order, id: string) {
    && e.seqno == o.seqno && e.timestamp == o.timestamp && e.symbol == o.symbol
    && (if o.side.Buy? then e.buyOrder else e.sellOrder) == id
  }

  lemma TurnMarks(s: State, id: string, index: nat)
    requires Wf(s) && Working(s, id)
    ensures var t := MatchTurn(s, id, index).state;
      && Marked(s, t, id) && t.orders[id].seqno == s.orders[id].seqno
         && t.orders[id].timestamp == s.orders[id].timestamp
      && t.orders[id].symbol == s.orders[id].symbol && t.orders[id].side == s.orders[id].side
  {
    hide Settle;
    var o := s.orders[id];
    var best := Best(s, o.symbol, o.side.Opposite());
    if o.remaining > 0 && best.Some? && !Beyond(o, s.orders[best.value]) && s.orders[best.value].owner != o.owner {
      PickedMakerTrades(s, id);
      assert OrderOk(s.settings, s.lastSeq, id, o) && OrderOk(s.settings, s.lastSeq, best.value, s.orders[best.value]);
    }
  }

  lemma {:induction false} MatchMarks(s: State, id: string, index: nat)
    requires Wf(s) && Working(s, id)
    ensures Marked(s, Match(s, id, index), id)
    decreases s.orders[id].remaining
  {
    hide MatchTurn, Wf;
    var turn := MatchTurn(s, id, index);
    TurnKeepsWf(s, id, index);
    TurnMarks(s, id, index);
    if turn.more {
      MatchMarks(turn.state, id, index + 1);
      MarkedTwice(s, turn.state, Match(turn.state, id, index + 1), id);
    }
  }

  lemma MarkedTwice(s: State, u: State, t: State, id: string)
    requires id in s.orders && id in u.orders && Marked(s, u, id) && Marked(u, t, id)
    requires u.orders[id].seqno == s.orders[id].seqno && u.orders[id].timestamp == s.orders[id].timestamp
    requires u.orders[id].symbol == s.orders[id].symbol && u.orders[id].side == s.orders[id].side
    ensures Marked(s, t, id)
  {
    forall k | |s.trades| <= k < |t.trades| ensures MarkedTrade(t.trades[k], s.orders[id], id) {
      if k < |u.trades| { assert t.trades[k] == u.trades[k]; }
    }
  }

  lemma TradesAreMarked(s: State, v: State, t: State, c: Command)
    requires c.body.New? && c.body.orderId in v.orders && AsAsked(v.orders[c.body.orderId], c)
    requires v.trades == s.trades && Marked(v, t, c.body.orderId)
    ensures TradesOf(s, t, c)
  {
    forall k | |s.trades| <= k < |t.trades| ensures MarkedTrade(t.trades[k], v.orders[c.body.orderId], c.body.orderId) {
    }
  }

  // ---------------------------------------------------------------- the daily limit

  /** The quantity of the orders an owner had accepted for a symbol on a day, going by the recorded answers. */
  function Submitted(results: map<int, Outcome>, commands: seq<Command>, owner: string, symbol: string, day: int): int {
    if commands == [] then 0
    else
      var c := commands[|commands| - 1];
      Submitted(results, commands[..|commands| - 1], owner, symbol, day)
      + if Counts(results, c, owner, symbol, day) then c.body.quantity else 0
  }

  predicate Counts(results: map<int, Outcome>, c: Command, owner: string, symbol: string, day: int) {
    && c.body.New? && c.owner == owner && c.body.symbol == symbol && DayOf(c.timestamp) == day
    && c.seqno in results && results[c.seqno].Accepted?
  }

  lemma {:induction false} SubmittedStays(r: map<int, Outcome>, q: map<int, Outcome>, commands: seq<Command>,
      owner: string, symbol: string, day: int)
    requires forall k :: 0 <= k < |commands| ==>
      (commands[k].seqno in r <==> commands[k].seqno in q)
      && (commands[k].seqno in r ==> r[commands[k].seqno] == q[commands[k].seqno])
    ensures Submitted(r, commands, owner, symbol, day) == Submitted(q, commands, owner, symbol, day)
  {
    if commands != [] { SubmittedStays(r, q, commands[..|commands| - 1], owner, symbol, day); }
  }

  lemma {:induction false} SequenceNumbers(rules: Settings, commands: seq<Command>)
    requires SettingsOk(rules) && Replay(rules, commands).Some?
    ensures forall k :: 0 <= k < |commands| ==> commands[k].seqno == k + 2
    ensures Replay(rules, commands).value.lastSeq == |commands| + 1
    ensures forall q :: q in Replay(rules, commands).value.results ==> 2 <= q <= |commands| + 1
  {
    hide Reduce, Sound, SettingsOk;
    if commands == [] {
      NothingAnswered(rules);
    } else {
      var front, c := commands[..|commands| - 1], commands[|commands| - 1];
      SequenceNumbers(rules, front);
      ReplayIsSound(rules, front);
      AnswerIsRecorded(Replay(rules, front).value, c);
      ReplayIsSound(rules, commands);
      forall k | 0 <= k < |commands| ensures commands[k].seqno == k + 2 {
        if k < |front| { assert front[k] == commands[k]; }
      }
    }
  }

  /** The command is numbered for its place and well-formed, and comes no earlier than the ones before it. */
  ghost predicate InOrder(rules: Settings, commands: seq<Command>, k: nat)
    requires k < |commands|
  {
    var c := commands[k];
    && c.seqno == k + 2 && k < 1000 && 1 <= c.timestamp <= MAX_TIMESTAMP && c.owner in rules.owners
    && (c.body.New? ==> 1 <= c.body.price <= 100_000_000 && 1 <= c.body.quantity <= 1_000_000)
    && forall j :: 0 <= j < k ==> commands[j].timestamp <= c.timestamp
  }

  /** A command history can be replayed if and only if every command in it is in order, whatever becomes of the
      orders. */
  lemma {:induction false} ReplaysIff(rules: Settings, commands: seq<Command>)
    requires SettingsOk(rules)
    ensures Replay(rules, commands).Some? <==> forall k: nat :: k < |commands| ==> InOrder(rules, commands, k)
    ensures Replay(rules, commands).Some? ==>
      var s := Replay(rules, commands).value;
      && s.settings == rules && s.lastSeq == |commands| + 1
      && s.lastTimestamp == if commands == [] then 0 else commands[|commands| - 1].timestamp
  {
    hide SettingsOk, Opened, DoNew, DoCancel, Wf, Sound;
    if commands != [] {
      var front, c := commands[..|commands| - 1], commands[|commands| - 1];
      ReplaysIff(rules, front);
      forall k: nat | k < |front| ensures InOrder(rules, front, k) <==> InOrder(rules, commands, k) { }
      assert forall k: nat {:trigger InOrder(rules, commands, k)} :: k < |commands| <==> k < |front| || k == |front|;
      if Replay(rules, front).Some? {
        LastIsInOrder(rules, commands, Replay(rules, front).value);
        ReplayIsSound(rules, front);
        SoundIsWf(Replay(rules, front).value);
        if Reduce(Replay(rules, front).value, c).Some? {
          ReduceKeepsWf(Replay(rules, front).value, c);
          ReduceMovesClock(Replay(rules, front).value, c);
        }
      }
    } else {
      NothingAnswered(rules);
    }
  }

  lemma LastIsInOrder(rules: Settings, commands: seq<Command>, s: State)
    requires commands != [] && s.settings == rules && s.lastSeq == |commands|
    requires s.lastTimestamp == if |commands| == 1 then 0 else commands[|commands| - 2].timestamp
    requires forall k: nat :: k < |commands| - 1 ==> InOrder(rules, commands, k)
    ensures Admissible(s, commands[|commands| - 1]) <==> InOrder(rules, commands, |commands| - 1)
  {
    var n := |commands| - 1;
    if n > 0 { assert InOrder(rules, commands, n - 1); }
  }

  lemma ReduceMovesClock(s: State, c: Command)
    requires Wf(s) && Reduce(s, c).Some?
    ensures Reduce(s, c).value.lastTimestamp == c.timestamp
  {
    hide Wf, Expire, Refusal, Match;
    CancelKeepsOwner(s, c);
    OpenedIsWf(s, c);
    if c.body.New? && Refusal(Opened(s, c), c).None? { MatchKeepsFrame(Enter(Opened(s, c), c), c.body.orderId, 0); }
  }

  lemma NothingAnswered(rules: Settings)
    ensures Genesis(rules).results == map[] && Genesis(rules).lastSeq == 1 && Genesis(rules).lastTimestamp == 0
      && Genesis(rules).settings == rules
  {
  }

  lemma AnswerIsRecorded(s: State, c: Command)
    requires Sound(s) && Reduce(s, c).Some?
    ensures c.seqno == s.lastSeq + 1 && c.seqno in Reduce(s, c).value.results
    ensures AnswersWith(s, Reduce(s, c).value, c, Reduce(s, c).value.results[c.seqno])
  {
    hide Opened, DoNew, DoCancel, Wf, Sound;
    SoundIsWf(s);
    CancelKeepsOwner(s, c);
    NextNumber(s, c);
    OpeningFacts(s, c);
    if c.body.Cancel? { CancelAnswers(Opened(s, c), c); } else { NewAnswers(Opened(s, c), c); }
  }

  lemma NextNumber(s: State, c: Command)
    requires Admissible(s, c)
    ensures c.seqno == s.lastSeq + 1
  {
  }

  lemma CancelAnswers(u: State, c: Command)
    ensures c.seqno in DoCancel(u, c).results
    ensures AnswersWith(u, DoCancel(u, c), c, DoCancel(u, c).results[c.seqno])
  {
    hide Add;
  }

  lemma NewAnswers(u: State, c: Command)
    requires c.body.New?
    ensures c.seqno in DoNew(u, c).results
    ensures AnswersWith(u, DoNew(u, c), c, DoNew(u, c).results[c.seqno])
  {
    hide Match, Refusal, Add;
    if Refusal(u, c).None? { MatchKeepsFrame(Enter(u, c), c.body.orderId, 0); }
  }

  lemma UsageAfter(s: State, c: Command, owner: string, symbol: string, day: int)
    requires Sound(s) && Reduce(s, c).Some?
    ensures var t := Reduce(s, c).value;
      Usage(t, owner, symbol, day) == Usage(s, owner, symbol, day)
        + if Counts(t.results, c, owner, symbol, day) then c.body.quantity else 0
  {
    hide Opened, Wf, Trading, AsAsked, TradesOf, OnlyExecuted, CalledOff, Expired;
    SoundIsWf(s);
    AnswerIsRecorded(s, c);
    if c.body.Cancel? {
      CancelIsExact(s, c);
    } else {
      NewIsRefusedIff(s, c);
      if Reduce(s, c).value.results[c.seqno].Accepted? { NewIsEntered(s, c); }
    }
  }

  /** The volume the limit is checked against is exactly what was accepted before, whatever came in between. */
  lemma {:induction false} UsageIsSubmitted(rules: Settings, commands: seq<Command>, owner: string, symbol: string,
      day: int)
    requires SettingsOk(rules) && Replay(rules, commands).Some?
    ensures var s := Replay(rules, commands).value;
      Usage(s, owner, symbol, day) == Submitted(s.results, commands, owner, symbol, day)
  {
    hide Reduce, Sound, SettingsOk, Usage, Counts;
    if commands == [] {
      NothingUsed(rules, owner, symbol, day);
    } else {
      var front, c := commands[..|commands| - 1], commands[|commands| - 1];
      var s, t := Replay(rules, front).value, Replay(rules, commands).value;
      UsageIsSubmitted(rules, front, owner, symbol, day);
      ReplayIsSound(rules, front);
      SequenceNumbers(rules, commands);
      SequenceNumbers(rules, front);
      AnswerIsRecorded(s, c);
      UsageAfter(s, c, owner, symbol, day);
      assert c.seqno == |front| + 2;
      forall k | 0 <= k < |front|
        ensures front[k].seqno in s.results <==> front[k].seqno in t.results
        ensures front[k].seqno in s.results ==> s.results[front[k].seqno] == t.results[front[k].seqno]
      {
        assert front[k].seqno == k + 2;
      }
      SubmittedStays(s.results, t.results, front, owner, symbol, day);
    }
  }

  lemma NothingUsed(rules: Settings, owner: string, symbol: string, day: int)
    ensures Usage(Genesis(rules), owner, symbol, day) == 0
  {
  }

  /** No owner ever has more than the limit accepted for one symbol on one day. */
  lemma {:induction false} LimitHolds(rules: Settings, commands: seq<Command>, owner: string, symbol: string, day: int)
    requires SettingsOk(rules) && Replay(rules, commands).Some? && rules.dailyLimit >= 0
    ensures Submitted(Replay(rules, commands).value.results, commands, owner, symbol, day) <= rules.dailyLimit
  {
    hide Reduce, Sound, SettingsOk, Usage, Counts;
    UsageIsSubmitted(rules, commands, owner, symbol, day);
    if commands != [] {
      var front, c := commands[..|commands| - 1], commands[|commands| - 1];
      LimitHolds(rules, front, owner, symbol, day);
      UsageIsSubmitted(rules, front, owner, symbol, day);
      ReplayIsSound(rules, front);
      UsageAfter(Replay(rules, front).value, c, owner, symbol, day);
      if Counts(Replay(rules, commands).value.results, c, owner, symbol, day) {
        CountedIsWithin(Replay(rules, front).value, c, owner, symbol, day);
      }
    }
  }

  lemma CountedIsWithin(s: State, c: Command, owner: string, symbol: string, day: int)
    requires Sound(s) && Reduce(s, c).Some? && Counts(Reduce(s, c).value.results, c, owner, symbol, day)
    ensures Usage(s, owner, symbol, day) + c.body.quantity <= s.settings.dailyLimit
  {
    hide Opened, Wf, Trading;
    SoundIsWf(s);
    NewIsRefusedIff(s, c);
  }
}
