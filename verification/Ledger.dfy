/** Conservation, reservations and reconciliation of the exchange, over every sequence of commands. */
module Ledger {
  import opened Wrappers
  import opened Sorting
  import opened Exchange

  // ---------------------------------------------------------------- reservations

  /** What one order holds of one account line. */
  function Reserve(o: Order, h: Holding): int {
    if o.Active() && o.Line() == h then o.Amount() else 0
  }

  function HeldSum(orders: map<string, Order>, ids: seq<string>, h: Holding): int {
    if ids == [] then 0
    else (if ids[0] in orders then Reserve(orders[ids[0]], h) else 0) + HeldSum(orders, ids[1..], h)
  }

  lemma {:induction false} HeldWithout(orders: map<string, Order>, ids: seq<string>, id: string, o: Order, h: Holding)
    requires id !in ids
    ensures HeldSum(orders[id := o], ids, h) == HeldSum(orders, ids, h)
  {
    if ids != [] { HeldWithout(orders, ids[1..], id, o, h); }
  }

  /** Changing one order changes a line's held sum by exactly that order's difference. */
  lemma {:induction false} HeldUpdate(orders: map<string, Order>, ids: seq<string>, id: string, o: Order, h: Holding)
    requires Distinct(ids) && id in ids && id in orders
    ensures HeldSum(orders[id := o], ids, h) == HeldSum(orders, ids, h) - Reserve(orders[id], h) + Reserve(o, h)
  {
    assert ids == [ids[0]] + ids[1..];
    if ids[0] == id {
      HeldWithout(orders, ids[1..], id, o, h);
    } else {
      HeldUpdate(orders, ids[1..], id, o, h);
    }
  }

  lemma {:induction false} HeldAppend(orders: map<string, Order>, ids: seq<string>, id: string, o: Order, h: Holding)
    requires id !in ids
    ensures HeldSum(orders[id := o], ids + [id], h) == HeldSum(orders, ids, h) + Reserve(o, h)
  {
    if ids == [] {
      assert ids + [id] == [id];
      assert HeldSum(orders[id := o], [id][1..], h) == 0;
    } else {
      HeldAppend(orders, ids[1..], id, o, h);
      assert (ids + [id])[1..] == ids[1..] + [id];
    }
  }

  // ---------------------------------------------------------------- flows

  /** What a trade adds to an account line. */
  function TradeFlow(t: Trade, h: Holding): int {
    match h
    case Cash(w) =>
      (if t.seller == w then t.price * t.quantity else 0) - (if t.buyer == w then t.price * t.quantity else 0)
    case Shares(w, y) =>
      if t.symbol != y then 0
      else (if t.buyer == w then t.quantity else 0) - (if t.seller == w then t.quantity else 0)
  }

  function Flow(trades: seq<Trade>, h: Holding): int {
    if trades == [] then 0 else Flow(trades[..|trades| - 1], h) + TradeFlow(trades[|trades| - 1], h)
  }

  function OpeningOf(rules: Settings, h: Holding): int {
    if h in rules.opening then rules.opening[h] else 0
  }

  /** One account line: nothing negative, held exactly what the active orders reserve, and in total its
      opening amount plus what its owner's trades brought. */
  ghost predicate LineSound(s: State, h: Holding) {
    && h in s.accounts
    && s.accounts[h].available >= 0 && s.accounts[h].held >= 0
    && s.accounts[h].held == HeldSum(s.orders, s.ids, h)
    && s.accounts[h].available + s.accounts[h].held == OpeningOf(s.settings, h) + Flow(s.trades, h)
  }

  ghost predicate LinesSound(s: State) {
    forall h :: h in s.accounts ==> LineSound(s, h)
  }

  // ---------------------------------------------------------------- executions

  function Volume(trades: seq<Trade>, id: string): int {
    if trades == [] then 0
    else
      var t := trades[|trades| - 1];
      Volume(trades[..|trades| - 1], id) + (if t.buyOrder == id || t.sellOrder == id then t.quantity else 0)
  }

  /** A trade names a bid and an ask of two owners and executes within both limits. */
  ghost predicate TradeOk(orders: map<string, Order>, t: Trade) {
    && t.buyOrder in orders && t.sellOrder in orders && t.quantity > 0
    && var bid, ask := orders[t.buyOrder], orders[t.sellOrder];
    bid.side.Buy? && ask.side.Sell? && bid.owner == t.buyer && ask.owner == t.seller && t.buyer != t.seller
    && bid.symbol == t.symbol == ask.symbol && ask.price <= t.price <= bid.price
  }

  ghost predicate Executions(s: State) {
    && s.executionSeq == |s.trades|
    && (forall i :: 0 <= i < |s.trades| ==> s.trades[i].executionSeq == i + 1 && TradeOk(s.orders, s.trades[i]))
    && (forall id :: id in s.orders ==> s.orders[id].filled == Volume(s.trades, id))
    && (forall id :: id !in s.orders ==> Volume(s.trades, id) == 0)
  }

  /** Everything the source's audit recomputes about accounts, orders and trades. */
  ghost predicate Sound(s: State) {
    Wf(s) && LinesSound(s) && Executions(s)
  }

  /** Orders changed only in status or reason, or added unfilled: executions still reconcile. */
  lemma ExecutionsCarryOver(s: State, t: State)
    requires Executions(s) && t.trades == s.trades && t.executionSeq == s.executionSeq
    requires forall id :: id in s.orders ==>
      id in t.orders && SameIdentity(s.orders[id], t.orders[id]) && t.orders[id].filled == s.orders[id].filled
    requires forall id :: id in t.orders && id !in s.orders ==> t.orders[id].filled == 0
    ensures Executions(t)
  {
    forall i | 0 <= i < |t.trades| ensures TradeOk(t.orders, t.trades[i]) { assert TradeOk(s.orders, s.trades[i]); }
  }

  ghost predicate SameIdentity(a: Order, b: Order) {
    a.side == b.side && a.owner == b.owner && a.symbol == b.symbol && a.price == b.price
  }

  // ---------------------------------------------------------------- release and entry

  lemma ReleaseLine(s: State, id: string, reason: Reason, h: Holding)
    requires Wf(s) && id in s.orders && s.orders[id].Active() && LineSound(s, h)
    ensures LineSound(Release(s, id, reason), h)
  {
    var o, t := s.orders[id], Release(s, id, reason);
    assert OrderOk(s.settings, s.lastSeq, id, o);
    HeldUpdate(s.orders, s.ids, id, o.(status := Canceled, reason := reason), h);
    ReleaseKeepsWf(s, id, reason);
    HeldIsNonNegative(t.orders, t.ids, h, t.settings, t.lastSeq);
    ProductNonNegative(o.remaining, o.price);
  }

  lemma ReleaseLines(s: State, id: string, reason: Reason)
    requires Wf(s) && LinesSound(s) && id in s.orders && s.orders[id].Active()
    ensures LinesSound(Release(s, id, reason))
  {
    var t := Release(s, id, reason);
    assert OrderOk(s.settings, s.lastSeq, id, s.orders[id]);
    assert t.accounts.Keys == s.accounts.Keys;
    forall h | h in t.accounts ensures LineSound(t, h) { ReleaseLine(s, id, reason, h); }
  }

  lemma ReleaseExecutions(s: State, id: string, reason: Reason)
    requires Executions(s) && id in s.orders
    ensures Executions(Release(s, id, reason))
  {
    ExecutionsCarryOver(s, Release(s, id, reason));
  }

  lemma ReleaseKeepsSound(s: State, id: string, reason: Reason)
    requires Sound(s) && id in s.orders && s.orders[id].Active()
    ensures Sound(Release(s, id, reason))
  {
    ReleaseKeepsWf(s, id, reason);
    ReleaseLines(s, id, reason);
    ReleaseExecutions(s, id, reason);
  }

  /** Recording a result or moving the cursor touches nothing the audit reads. */
  lemma AnswerKeepsSound(s: State, c: Command, o: Outcome)
    requires Sound(s)
    ensures Sound(Answer(s, c, o))
  {
    var t := Answer(s, c, o);
    forall h | h in t.accounts ensures LineSound(t, h) { assert LineSound(s, h); }
  }

  lemma {:induction false} HeldIsNonNegative(orders: map<string, Order>, ids: seq<string>, h: Holding, rules: Settings,
      lastSeq: int)
    requires forall id :: id in orders ==> OrderOk(rules, lastSeq, id, orders[id])
    ensures HeldSum(orders, ids, h) >= 0
  {
    if ids != [] {
      HeldIsNonNegative(orders, ids[1..], h, rules, lastSeq);
      if ids[0] in orders { assert OrderOk(rules, lastSeq, ids[0], orders[ids[0]]); }
    }
  }

  ghost predicate Enterable(s: State, c: Command) {
    && c.body.New? && c.owner in s.settings.owners && Refusal(s, c).None? && c.body.price > 0 && c.body.quantity > 0
    && s.lastSeq == c.seqno && forall id :: id in s.orders ==> s.orders[id].seqno < c.seqno
  }

  lemma EnterLine(s: State, c: Command, h: Holding)
    requires Wf(s) && Enterable(s, c) && LineSound(s, h)
    ensures LineSound(Enter(s, c), h)
  {
    var t, id := Enter(s, c), c.body.orderId;
    EnterKeepsWf(s, c);
    HeldAppend(s.orders, s.ids, id, t.orders[id], h);
    HeldIsNonNegative(t.orders, t.ids, h, t.settings, t.lastSeq);
  }

  lemma EnterKeepsSound(s: State, c: Command)
    requires Sound(s) && Enterable(s, c)
    ensures Sound(Enter(s, c)) && Working(Enter(s, c), c.body.orderId)
  {
    hide Wf, LineSound, HeldSum, Flow, Volume;
    var t := Enter(s, c);
    EnterKeepsWf(s, c);
    ExecutionsCarryOver(s, t);
    assert t.accounts.Keys == s.accounts.Keys;
    forall h | h in t.accounts ensures LineSound(t, h) { EnterLine(s, c, h); }
  }

  // ---------------------------------------------------------------- one execution

  lemma SettleLine(accounts: map<Holding, Balance>, bid: Order, ask: Order, count: int, price: int, h: Holding)
    requires bid.owner != ask.owner && h in accounts
    ensures var b := Line(Settle(accounts, bid, ask, count, price), h);
      && b.held == accounts[h].held - (if h == Cash(bid.owner) then bid.price * count else 0)
                                    - (if h == Shares(ask.owner, bid.symbol) then count else 0)
      && b.available == accounts[h].available + (if h == Cash(bid.owner) then (bid.price - price) * count else 0)
                        + (if h == Cash(ask.owner) then price * count else 0)
                        + (if h == Shares(bid.owner, bid.symbol) then count else 0)
  {
  }

  lemma ExecutedReserve(o: Order, count: int, h: Holding)
    requires o.Active() && 0 <= count <= o.remaining
    ensures Reserve(Executed(o, count), h)
      == Reserve(o, h) - (if o.Line() == h then (if o.side.Buy? then o.price * count else count) else 0)
  {
    assert (o.remaining - count) * o.price == o.remaining * o.price - o.price * count;
  }

  /** The incoming order and a maker of another owner within its limit. */
  ghost predicate Parties(s: State, id: string, maker: string) {
    && Tradable(s, id, maker) && s.orders[id].owner != s.orders[maker].owner
    && !Beyond(s.orders[id], s.orders[maker])
  }

  lemma FillHeld(s: State, id: string, maker: string, index: nat, h: Holding)
    requires Wf(s) && Parties(s, id, maker) && LineSound(s, h)
    ensures var t := Fill(s, id, maker, index); h in t.accounts && t.accounts[h].held == HeldSum(t.orders, t.ids, h)
  {
    var o, m := s.orders[id], s.orders[maker];
    var count := Min(o.remaining, m.remaining);
    HeldUpdate(s.orders, s.ids, id, Executed(o, count), h);
    HeldUpdate(s.orders[id := Executed(o, count)], s.ids, maker, Executed(m, count), h);
    ExecutedReserve(o, count, h);
    ExecutedReserve(m, count, h);
    SettleLine(s.accounts, Bid(s, id, maker), Ask(s, id, maker), count, m.price, h);
  }

  /** Settlement moves a line's total by the trade's flow and never lowers what is available. */
  lemma SettleFlow(accounts: map<Holding, Balance>, bid: Order, ask: Order, count: int, t: Trade, h: Holding)
    requires bid.owner != ask.owner && h in accounts && count >= 0 && bid.price >= t.price >= 0
    requires t.quantity == count && t.symbol == bid.symbol && t.buyer == bid.owner && t.seller == ask.owner
    ensures var b := Line(Settle(accounts, bid, ask, count, t.price), h);
      && b.available + b.held == accounts[h].available + accounts[h].held + TradeFlow(t, h)
      && b.available >= accounts[h].available
  {
    SettleLine(accounts, bid, ask, count, t.price, h);
    assert (bid.price - t.price) * count == bid.price * count - t.price * count;
    ProductNonNegative(bid.price - t.price, count);
    ProductNonNegative(t.price, count);
  }

  lemma FillLine(s: State, id: string, maker: string, index: nat, h: Holding)
    requires Wf(s) && Parties(s, id, maker) && LineSound(s, h)
    ensures LineSound(Fill(s, id, maker, index), h)
  {
    var t := Fill(s, id, maker, index);
    var o, m := s.orders[id], s.orders[maker];
    assert OrderOk(s.settings, s.lastSeq, id, o) && OrderOk(s.settings, s.lastSeq, maker, m);
    SettleFlow(s.accounts, Bid(s, id, maker), Ask(s, id, maker), Min(o.remaining, m.remaining), t.trades[|s.trades|],
        h);
    assert t.trades[..|t.trades| - 1] == s.trades;
    FillHeld(s, id, maker, index, h);
    FillKeepsOrders(s, id, maker, index);
    HeldIsNonNegative(t.orders, t.ids, h, t.settings, t.lastSeq);
  }

  lemma ProductNonNegative(a: int, b: int)
    requires a >= 0 && b >= 0
    ensures a * b >= 0
  {
  }

  lemma FillTrades(s: State, id: string, maker: string, index: nat)
    requires Wf(s) && Parties(s, id, maker) && Executions(s)
    ensures var t := Fill(s, id, maker, index);
      && t.executionSeq == |t.trades|
      && forall i :: 0 <= i < |t.trades| ==> t.trades[i].executionSeq == i + 1 && TradeOk(t.orders, t.trades[i])
  {
    hide Settle, Volume;
    var t := Fill(s, id, maker, index);
    var o, m := s.orders[id], s.orders[maker];
    assert OrderOk(s.settings, s.lastSeq, id, o) && OrderOk(s.settings, s.lastSeq, maker, m);
    assert TradeOk(t.orders, t.trades[|s.trades|]);
    forall i | 0 <= i < |s.trades| ensures TradeOk(t.orders, t.trades[i]) { assert TradeOk(s.orders, s.trades[i]); }
  }

  lemma FillVolumes(s: State, id: string, maker: string, index: nat, k: string)
    requires Wf(s) && Parties(s, id, maker)
    ensures Volume(Fill(s, id, maker, index).trades, k)
         == Volume(s.trades, k)
           + (if k == id || k == maker then Min(s.orders[id].remaining, s.orders[maker].remaining) else 0)
  {
    var t := Fill(s, id, maker, index);
    assert OrderOk(s.settings, s.lastSeq, id, s.orders[id]) && OrderOk(s.settings, s.lastSeq, maker, s.orders[maker]);
    assert t.trades[..|t.trades| - 1] == s.trades;
  }

  lemma FillExecutions(s: State, id: string, maker: string, index: nat)
    requires Wf(s) && Parties(s, id, maker) && Executions(s)
    ensures Executions(Fill(s, id, maker, index))
  {
    hide Volume, TradeOk, Settle, OrderOk;
    var t := Fill(s, id, maker, index);
    FillTrades(s, id, maker, index);
    forall k ensures if k in t.orders then t.orders[k].filled == Volume(t.trades, k) else Volume(t.trades, k) == 0 {
      FillVolumes(s, id, maker, index, k);
    }
  }

  lemma FillKeepsSound(s: State, id: string, maker: string, index: nat)
    requires Sound(s) && Parties(s, id, maker)
    ensures Sound(Fill(s, id, maker, index)) && Working(Fill(s, id, maker, index), id)
  {
    var t := Fill(s, id, maker, index);
    FillKeepsWf(s, id, maker, index);
    FillExecutions(s, id, maker, index);
    forall h | h in t.accounts ensures LineSound(t, h) {
      assert h in s.accounts;
      FillLine(s, id, maker, index, h);
    }
  }

  // ---------------------------------------------------------------- whole commands and runs

  lemma ExpireOneKeepsSound(s: State, id: string, day: int)
    requires Sound(s)
    ensures Sound(ExpireOne(s, id, day))
  {
    if id in s.orders && s.orders[id].Active() { ReleaseKeepsSound(s, id, DayExpired); }
  }

  lemma {:induction false} ExpireKeepsSound(s: State, n: nat, day: int)
    requires Sound(s) && n <= |s.ids|
    ensures Sound(Expire(s, n, day))
  {
    if n > 0 {
      ExpireKeepsSound(s, n - 1, day);
      ExpireOneKeepsSound(Expire(s, n - 1, day), s.ids[n - 1], day);
    }
  }

  lemma TurnKeepsSound(s: State, id: string, index: nat)
    requires Sound(s) && Working(s, id)
    ensures var turn := MatchTurn(s, id, index); Sound(turn.state) && (turn.more ==> Working(turn.state, id))
  {
    hide Sound, Wf, Fill, Release, Best, Tradable;
    SoundIsWf(s);
    var o := s.orders[id];
    var best := Best(s, o.symbol, o.side.Opposite());
    if o.remaining > 0 && best.Some? && !Beyond(o, s.orders[best.value]) {
      PickedMakerTrades(s, id);
      if s.orders[best.value].owner == o.owner {
        ReleaseKeepsSound(s, id, SelfTradePrevention);
      } else {
        FillKeepsSound(s, id, best.value, index + 1);
      }
    }
  }

  lemma {:induction false} MatchKeepsSound(s: State, id: string, index: nat)
    requires Sound(s) && Working(s, id)
    ensures Sound(Match(s, id, index))
    decreases s.orders[id].remaining
  {
    var turn := MatchTurn(s, id, index);
    TurnKeepsSound(s, id, index);
    if turn.more { MatchKeepsSound(turn.state, id, index + 1); }
  }

  lemma CursorKeepsSound(s: State, c: Command)
    requires Sound(s) && Admissible(s, c)
    ensures Sound(s.(lastSeq := c.seqno, lastTimestamp := c.timestamp))
  {
    hide Wf, HeldSum, Flow, Volume;
    var u := s.(lastSeq := c.seqno, lastTimestamp := c.timestamp);
    CursorKeepsWf(s, c);
    forall h | h in u.accounts ensures LineSound(u, h) { assert LineSound(s, h); }
  }

  lemma SoundIsWf(s: State)
    requires Sound(s)
    ensures Wf(s)
  {
  }

  lemma OpenedIsSound(s: State, c: Command)
    requires Sound(s) && Admissible(s, c)
    ensures Sound(Opened(s, c)) && Opened(s, c).settings == s.settings && Opened(s, c).lastSeq == c.seqno
    ensures forall id :: id in Opened(s, c).orders ==> Opened(s, c).orders[id].seqno < c.seqno
  {
    hide Sound, Wf, Expire;
    var u := s.(lastSeq := c.seqno, lastTimestamp := c.timestamp);
    CursorKeepsSound(s, c);
    SoundIsWf(s);
    OpenedIsWf(s, c);
    ExpireKeepsSound(u, |u.ids|, DayOf(c.timestamp));
  }

  lemma DoNewKeepsSound(t: State, c: Command)
    requires Sound(t) && c.body.New? && c.owner in t.settings.owners && c.body.price > 0 && c.body.quantity > 0
    requires t.lastSeq == c.seqno && forall id :: id in t.orders ==> t.orders[id].seqno < c.seqno
    ensures Sound(DoNew(t, c))
  {
    var id := c.body.orderId;
    if Refusal(t, c).None? {
      EnterKeepsSound(t, c);
      MatchKeepsSound(Enter(t, c), id, 0);
      var u := Match(Enter(t, c), id, 0);
      AnswerKeepsSound(u, c, Accepted(id, u.orders[id].status));
    } else {
      AnswerKeepsSound(t, c, Rejected(id, Refusal(t, c).value));
    }
  }

  lemma DoCancelKeepsSound(t: State, c: Command)
    requires Sound(t)
    ensures Sound(DoCancel(t, c))
  {
    var id := c.body.orderId;
    if id in t.orders && t.orders[id].owner == c.owner && t.orders[id].Active() {
      ReleaseKeepsSound(t, id, UserCancel);
      AnswerKeepsSound(Release(t, id, UserCancel), c, Accepted(id, Canceled));
    } else {
      AnswerKeepsSound(t, c, Rejected(id, OwnedOrderNotFound));
      AnswerKeepsSound(t, c, Rejected(id, OrderAlreadyFilled));
      AnswerKeepsSound(t, c, Accepted(id, Canceled));
    }
  }

  /** One command keeps every audited fact. */
  lemma ReduceKeepsSound(s: State, c: Command)
    requires Sound(s) && Reduce(s, c).Some?
    ensures Sound(Reduce(s, c).value)
  {
    OpenedIsSound(s, c);
    if c.body.New? {
      DoNewKeepsSound(Opened(s, c), c);
    } else {
      DoCancelKeepsSound(Opened(s, c), c);
    }
  }

  /** Opening settings `validate_settings` accepts: distinct names, amounts never negative and only on known lines. */
  ghost predicate SettingsOk(rules: Settings) {
    && Distinct(rules.owners)
    && forall h :: h in rules.opening ==>
       rules.opening[h] >= 0 && h.owner in rules.owners && (h.Shares? ==> h.symbol in rules.symbols)
  }

  /** The lines genesis opens. */
  function GenesisLines(rules: Settings): set<Holding> {
    (set w | w in rules.owners :: Cash(w)) + (set w, y | w in rules.owners && y in rules.symbols :: Shares(w, y))
  }

  function Genesis(rules: Settings): State {
    State(map h | h in GenesisLines(rules) :: Balance(OpeningOf(rules, h), 0), map[], [], [], map[], map[], rules, 0,
        1, 0)
  }

  /** Feed commands in order; the first inadmissible one stops the replay. */
  function Replay(rules: Settings, commands: seq<Command>): Option<State> {
    if commands == [] then Some(Genesis(rules))
    else
      var s := Replay(rules, commands[..|commands| - 1]);
      if s.None? then None else Reduce(s.value, commands[|commands| - 1])
  }

  /** Every state any command history reaches passes the audit. */
  lemma {:induction false} ReplayIsSound(rules: Settings, commands: seq<Command>)
    requires SettingsOk(rules) && Replay(rules, commands).Some?
    ensures Sound(Replay(rules, commands).value) && Replay(rules, commands).value.settings == rules
    ensures Replay(rules, commands).value.lastSeq == |commands| + 1
  {
    if commands != [] {
      var front := commands[..|commands| - 1];
      ReplayIsSound(rules, front);
      var s, c := Replay(rules, front).value, commands[|commands| - 1];
      ReduceKeepsSound(s, c);
      ReduceKeepsWf(s, c);
    }
  }

  // ---------------------------------------------------------------- supply

  datatype Asset = Money | Stock(symbol: string)

  function HoldingOf(owner: string, a: Asset): Holding {
    if a.Money? then Cash(owner) else Shares(owner, a.symbol)
  }

  /** Available plus held of one asset over the listed owners. */
  function Supply(accounts: map<Holding, Balance>, owners: seq<string>, a: Asset): int {
    if owners == [] then 0
    else
      var b := Line(accounts, HoldingOf(owners[0], a));
      b.available + b.held + Supply(accounts, owners[1..], a)
  }

  function OpeningSupply(rules: Settings, owners: seq<string>, a: Asset): int {
    if owners == [] then 0 else OpeningOf(rules, HoldingOf(owners[0], a)) + OpeningSupply(rules, owners[1..], a)
  }

  function FlowSum(trades: seq<Trade>, owners: seq<string>, a: Asset): int {
    if owners == [] then 0 else Flow(trades, HoldingOf(owners[0], a)) + FlowSum(trades, owners[1..], a)
  }

  function TradeSum(t: Trade, owners: seq<string>, a: Asset): int {
    if owners == [] then 0 else TradeFlow(t, HoldingOf(owners[0], a)) + TradeSum(t, owners[1..], a)
  }

  function Moved(t: Trade, a: Asset): int {
    match a
    case Money => t.price * t.quantity
    case Stock(y) => if t.symbol == y then -t.quantity else 0
  }

  /** Over distinct owners a trade adds once to the seller and takes once from the buyer. */
  lemma {:induction false} TradeSumIsPairwise(t: Trade, owners: seq<string>, a: Asset)
    requires Distinct(owners)
    ensures TradeSum(t, owners, a)
      == (if t.seller in owners then Moved(t, a) else 0) - (if t.buyer in owners then Moved(t, a) else 0)
  {
    if owners != [] {
      TradeSumIsPairwise(t, owners[1..], a);
      assert owners == [owners[0]] + owners[1..];
    }
  }

  lemma {:induction false} FlowSumSplits(trades: seq<Trade>, t: Trade, owners: seq<string>, a: Asset)
    ensures FlowSum(trades + [t], owners, a) == FlowSum(trades, owners, a) + TradeSum(t, owners, a)
  {
    if owners != [] {
      FlowSumSplits(trades, t, owners[1..], a);
      assert (trades + [t])[..|trades|] == trades;
    }
  }

  lemma {:induction false} FlowsCancel(trades: seq<Trade>, owners: seq<string>, a: Asset)
    requires Distinct(owners) && forall i :: 0 <= i < |trades| ==>
      trades[i].buyer in owners && trades[i].seller in owners
    ensures FlowSum(trades, owners, a) == 0
  {
    if trades == [] {
      NoFlow(owners, a);
    } else {
      var front, last := trades[..|trades| - 1], trades[|trades| - 1];
      FlowsCancel(front, owners, a);
      assert trades == front + [last];
      FlowSumSplits(front, last, owners, a);
      TradeSumIsPairwise(last, owners, a);
    }
  }

  lemma {:induction false} NoFlow(owners: seq<string>, a: Asset)
    ensures FlowSum([], owners, a) == 0
  {
    if owners != [] { NoFlow(owners[1..], a); }
  }

  lemma {:induction false} SupplyIsOpeningPlusFlow(s: State, owners: seq<string>, a: Asset)
    requires LinesSound(s) && forall w :: w in owners ==> HoldingOf(w, a) in s.accounts
    ensures Supply(s.accounts, owners, a) == OpeningSupply(s.settings, owners, a) + FlowSum(s.trades, owners, a)
  {
    if owners != [] {
      assert LineSound(s, HoldingOf(owners[0], a));
      SupplyIsOpeningPlusFlow(s, owners[1..], a);
    }
  }

  /** Total cash, and total shares of every symbol, never change over any command history. */
  lemma SupplyIsConserved(rules: Settings, commands: seq<Command>, a: Asset)
    requires SettingsOk(rules) && Replay(rules, commands).Some?
    requires a.Stock? ==> a.symbol in rules.symbols
    ensures Supply(Replay(rules, commands).value.accounts, rules.owners, a) == OpeningSupply(rules, rules.owners, a)
  {
    ReplayIsSound(rules, commands);
    var s := Replay(rules, commands).value;
    SupplyIsOpeningPlusFlow(s, rules.owners, a);
    forall i | 0 <= i < |s.trades| ensures s.trades[i].buyer in rules.owners && s.trades[i].seller in rules.owners {
      var t := s.trades[i];
      assert TradeOk(s.orders, t);
      assert OrderOk(s.settings, s.lastSeq, t.buyOrder, s.orders[t.buyOrder]);
      assert OrderOk(s.settings, s.lastSeq, t.sellOrder, s.orders[t.sellOrder]);
    }
    FlowsCancel(s.trades, rules.owners, a);
  }
}
