/** The sequenced matching rules over plain state: no index, the best resting order is found by scanning. */
module Exchange {
  import opened Wrappers
  import opened Sorting

  datatype Side = Buy | Sell {
    function Opposite(): Side { if Buy? then Sell else Buy }
  }

  datatype Status = Open | Partial | Filled | Canceled

  datatype Reason = NoReason | DayExpired | UserCancel | SelfTradePrevention

  datatype Order = Order(requestId: string, orderId: string, symbol: string, side: Side, price: int, quantity: int,
                         owner: string, seqno: int, timestamp: int, day: int,
                         remaining: int, filled: int, status: Status, reason: Reason)
  {
    predicate Active() { status.Open? || status.Partial? }
    /** The account line an order reserves from, and how much it reserves while active. */
    function Line(): Holding { if side.Buy? then Cash(owner) else Shares(owner, symbol) }
    function Amount(): int { if side.Buy? then remaining * price else remaining }
  }

  /** The trade identifier is the pair (sequence, index) that the source renders as text. */
  datatype Trade = Trade(seqno: int, index: nat, executionSeq: int, symbol: string, price: int, quantity: int,
                         timestamp: int, buyOrder: string, sellOrder: string, buyer: string, seller: string)

  /** One account line: an owner's cash, or an owner's position in a symbol. */
  datatype Holding = Cash(owner: string) | Shares(owner: string, symbol: string)

  datatype Balance = Balance(available: int, held: int)

  datatype Session = Session(weekdays: set<int>, startMinute: int, endMinute: int)

  datatype Settings = Settings(symbols: seq<string>, owners: seq<string>, opening: map<Holding, int>, session: Session,
      dailyLimit: int)

  datatype Rejection = OwnedOrderNotFound | OrderAlreadyFilled | OrderIdExists | UnknownSymbol | SessionClosed
                     | DailySubmittedVolumeLimit | InsufficientCash | InsufficientShares

  datatype Outcome = Accepted(orderId: string, status: Status) | Rejected(orderId: string, why: Rejection)

  /** The engine state; `ids` is the insertion order of the order dictionary. */
  datatype State = State(accounts: map<Holding, Balance>, orders: map<string, Order>, ids: seq<string>,
      trades: seq<Trade>,
                         results: map<int, Outcome>, daily: map<(string, string, int), int>, settings: Settings,
                         executionSeq: int, lastSeq: int, lastTimestamp: int)

  datatype Body = New(requestId: string, orderId: string, symbol: string, side: Side, price: int, quantity: int)
                | Cancel(requestId: string, orderId: string)

  datatype Command = Command(seqno: int, timestamp: int, owner: string, body: Body)

  const MAX_TIMESTAMP := 253402300799

  // ---------------------------------------------------------------- well-formed states

  ghost predicate OrderOk(rules: Settings, lastSeq: int, id: string, o: Order) {
    && o.orderId == id && o.price > 0 && o.remaining >= 0 && o.filled >= 0 && o.filled + o.remaining == o.quantity > 0
    && (o.Active() ==> o.remaining > 0) && (o.status.Filled? ==> o.remaining == 0)
    && (o.status.Open? <==> o.Active() && o.filled == 0)
    && o.owner in rules.owners && o.symbol in rules.symbols && o.seqno <= lastSeq
  }

  ghost predicate DistinctSequences(orders: map<string, Order>) {
    forall a, b :: a in orders && b in orders && a != b ==> orders[a].seqno != orders[b].seqno
  }

  ghost predicate OrdersOk(orders: map<string, Order>, ids: seq<string>, rules: Settings, lastSeq: int) {
    && Distinct(ids) && (forall id :: id in ids <==> id in orders)
    && (forall id :: id in orders ==> OrderOk(rules, lastSeq, id, orders[id]))
    && DistinctSequences(orders)
  }

  /** The account lines are every owner's cash line and a line per owner and symbol. */
  ghost predicate LinesOk(accounts: map<Holding, Balance>, rules: Settings) {
    forall h :: h in accounts <==> h.owner in rules.owners && (h.Shares? ==> h.symbol in rules.symbols)
  }

  ghost predicate Wf(s: State) {
    OrdersOk(s.orders, s.ids, s.settings, s.lastSeq) && LinesOk(s.accounts, s.settings) && Distinct(s.settings.owners)
  }

  lemma UpdateKeepsOrders(orders: map<string, Order>, ids: seq<string>, rules: Settings, lastSeq: int, id: string,
      o: Order)
    requires OrdersOk(orders, ids, rules, lastSeq) && id in orders
    requires OrderOk(rules, lastSeq, id, o) && o.seqno == orders[id].seqno
    ensures OrdersOk(orders[id := o], ids, rules, lastSeq)
  {
  }

  // ---------------------------------------------------------------- the scan for the best resting order

  /** An order the book can trade against; an active order always has a remainder (`OrderOk`). */
  predicate Resting(o: Order, symbol: string, side: Side) {
    o.Active() && o.remaining > 0 && o.symbol == symbol && o.side == side
  }

  /** Price priority on the order's own side, then earlier sequence number. */
  predicate Outranks(a: Order, b: Order) {
    (if a.side.Buy? then a.price > b.price else a.price < b.price) || (a.price == b.price && a.seqno < b.seqno)
  }

  function BestAmong(orders: map<string, Order>, ids: seq<string>, symbol: string, side: Side): (r: Option<string>)
    ensures r.Some? ==> r.value in ids && r.value in orders && Resting(orders[r.value], symbol, side)
    decreases |ids|
  {
    if ids == [] then None
    else
      var id := ids[|ids| - 1];
      var best := BestAmong(orders, ids[..|ids| - 1], symbol, side);
      if id in orders && Resting(orders[id], symbol, side) && (best.None? || Outranks(orders[id], orders[best.value]))
        then Some(id) else best
  }

  function Best(s: State, symbol: string, side: Side): (r: Option<string>)
    ensures r.Some? ==> r.value in s.orders && Resting(s.orders[r.value], symbol, side)
  {
    BestAmong(s.orders, s.ids, symbol, side)
  }

  /** `id` is the active order on one market side that outranks all others there. */
  ghost predicate IsBest(orders: map<string, Order>, symbol: string, side: Side, id: string) {
    && id in orders && Resting(orders[id], symbol, side)
    && forall other :: other in orders && Resting(orders[other], symbol, side) && other != id ==>
       Outranks(orders[id], orders[other])
  }

  lemma {:induction false} BestAmongIsBest(orders: map<string, Order>, ids: seq<string>, symbol: string, side: Side)
    requires forall id :: id in ids ==> id in orders
    requires forall a, b :: a in orders && b in orders && a != b ==> orders[a].seqno != orders[b].seqno
    ensures var r := BestAmong(orders, ids, symbol, side);
      if r.None? then forall id :: id in ids ==> !Resting(orders[id], symbol, side)
      else forall other :: other in ids && Resting(orders[other], symbol, side) && other != r.value ==>
        Outranks(orders[r.value], orders[other])
    decreases |ids|
  {
    if ids != [] {
      var front := ids[..|ids| - 1];
      assert ids == front + [ids[|ids| - 1]];
      BestAmongIsBest(orders, front, symbol, side);
    }
  }

  /** The scan finds the best resting order exactly when there is one. */
  lemma ScanFindsBest(s: State, symbol: string, side: Side)
    requires Wf(s)
    ensures Best(s, symbol, side).Some? ==> IsBest(s.orders, symbol, side, Best(s, symbol, side).value)
    ensures Best(s, symbol, side).None? ==> forall id :: id in s.orders ==> !Resting(s.orders[id], symbol, side)
    ensures forall id :: IsBest(s.orders, symbol, side, id) ==> Best(s, symbol, side) == Some(id)
  {
    BestAmongIsBest(s.orders, s.ids, symbol, side);
  }

  // ---------------------------------------------------------------- single steps

  function Line(accounts: map<Holding, Balance>, h: Holding): Balance {
    if h in accounts then accounts[h] else Balance(0, 0)
  }

  function Add(accounts: map<Holding, Balance>, h: Holding, available: int, held: int): map<Holding, Balance> {
    accounts[h := Balance(Line(accounts, h).available + available, Line(accounts, h).held + held)]
  }

  /** Return an order's remaining reservation and close it. */
  function Release(s: State, id: string, reason: Reason): State
    requires id in s.orders
  {
    var o := s.orders[id];
    s.(accounts := Add(s.accounts, o.Line(), o.Amount(), -o.Amount()),
       orders := s.orders[id := o.(status := Canceled, reason := reason)])
  }

  /** Executing part of an order. */
  function Executed(o: Order, count: int): Order {
    o.(remaining := o.remaining - count, filled := o.filled + count,
       status := if o.remaining == count then Filled else Partial)
  }

  /** Cash and shares after `count` trade between a bid and an ask at `price`; the buyer had reserved its own limit. */
  function Settle(accounts: map<Holding, Balance>, bid: Order, ask: Order, count: int,
      price: int): map<Holding, Balance> {
    var a1 := Add(accounts, Cash(bid.owner), (bid.price - price) * count, -bid.price * count);
    var a2 := Add(a1, Cash(ask.owner), price * count, 0);
    var a3 := Add(a2, Shares(ask.owner, bid.symbol), 0, -count);
    Add(a3, Shares(bid.owner, bid.symbol), count, 0)
  }

  /** An incoming order and a resting order that may trade. */
  ghost predicate Tradable(s: State, id: string, maker: string) {
    && id in s.orders && maker in s.orders && id != maker
    && s.orders[id].Active() && s.orders[id].remaining > 0
       && Resting(s.orders[maker], s.orders[id].symbol, s.orders[id].side.Opposite())
  }

  /** The two sides of an execution, as the source names them. */
  function Bid(s: State, id: string, maker: string): Order
    requires id in s.orders && maker in s.orders
  {
    if s.orders[id].side.Buy? then s.orders[id] else s.orders[maker]
  }

  function Ask(s: State, id: string, maker: string): Order
    requires id in s.orders && maker in s.orders
  {
    if s.orders[id].side.Buy? then s.orders[maker] else s.orders[id]
  }

  /** One execution of the incoming order against the maker, at the maker's price. */
  function Fill(s: State, id: string, maker: string, index: nat): State
    requires id in s.orders && maker in s.orders
  {
    var o, m := s.orders[id], s.orders[maker];
    var count := Min(o.remaining, m.remaining);
    var bid, ask := Bid(s, id, maker), Ask(s, id, maker);
    s.(accounts := Settle(s.accounts, bid, ask, count, m.price),
       orders := s.orders[id := Executed(o, count)][maker := Executed(m, count)],
       trades := s.trades + [Trade(o.seqno, index, s.executionSeq + 1, o.symbol, m.price, count, o.timestamp,
                                   bid.orderId, ask.orderId, bid.owner, ask.owner)],
       executionSeq := s.executionSeq + 1)
  }

  lemma ReleaseKeepsWf(s: State, id: string, reason: Reason)
    requires Wf(s) && id in s.orders && s.orders[id].Active()
    ensures Wf(Release(s, id, reason))
  {
    assert OrderOk(s.settings, s.lastSeq, id, s.orders[id]);
    UpdateKeepsOrders(s.orders, s.ids, s.settings, s.lastSeq, id, s.orders[id].(status := Canceled, reason := reason));
  }

  lemma FillKeepsOrders(s: State, id: string, maker: string, index: nat)
    requires Wf(s) && Tradable(s, id, maker)
    ensures var t := Fill(s, id, maker, index); OrdersOk(t.orders, t.ids, t.settings, t.lastSeq)
    ensures Working(Fill(s, id, maker, index), id)
    ensures 0 <= Fill(s, id, maker, index).orders[id].remaining < s.orders[id].remaining
  {
    var o, m := s.orders[id], s.orders[maker];
    assert OrderOk(s.settings, s.lastSeq, id, o) && OrderOk(s.settings, s.lastSeq, maker, m);
    var count := Min(o.remaining, m.remaining);
    UpdateKeepsOrders(s.orders, s.ids, s.settings, s.lastSeq, id, Executed(o, count));
    UpdateKeepsOrders(s.orders[id := Executed(o, count)], s.ids, s.settings, s.lastSeq, maker, Executed(m, count));
  }

  lemma AddKeepsLines(accounts: map<Holding, Balance>, rules: Settings, h: Holding, available: int, held: int)
    requires LinesOk(accounts, rules) && h in accounts
    ensures LinesOk(Add(accounts, h, available, held), rules)
  {
  }

  lemma SettleKeepsLines(accounts: map<Holding, Balance>, rules: Settings, bid: Order, ask: Order, count: int,
      price: int)
    requires LinesOk(accounts, rules) && bid.owner in rules.owners && ask.owner in rules.owners
      && bid.symbol in rules.symbols
    ensures LinesOk(Settle(accounts, bid, ask, count, price), rules)
  {
    var a1 := Add(accounts, Cash(bid.owner), (bid.price - price) * count, -bid.price * count);
    AddKeepsLines(accounts, rules, Cash(bid.owner), (bid.price - price) * count, -bid.price * count);
    var a2 := Add(a1, Cash(ask.owner), price * count, 0);
    AddKeepsLines(a1, rules, Cash(ask.owner), price * count, 0);
    var a3 := Add(a2, Shares(ask.owner, bid.symbol), 0, -count);
    AddKeepsLines(a2, rules, Shares(ask.owner, bid.symbol), 0, -count);
    AddKeepsLines(a3, rules, Shares(bid.owner, bid.symbol), count, 0);
  }

  lemma FillKeepsWf(s: State, id: string, maker: string, index: nat)
    requires Wf(s) && Tradable(s, id, maker)
    ensures Wf(Fill(s, id, maker, index))
    ensures Working(Fill(s, id, maker, index), id)
    ensures 0 <= Fill(s, id, maker, index).orders[id].remaining < s.orders[id].remaining
  {
    FillKeepsOrders(s, id, maker, index);
    assert OrderOk(s.settings, s.lastSeq, id, s.orders[id]) && OrderOk(s.settings, s.lastSeq, maker, s.orders[maker]);
    SettleKeepsLines(s.accounts, s.settings, Bid(s, id, maker), Ask(s, id, maker),
                     Min(s.orders[id].remaining, s.orders[maker].remaining), s.orders[maker].price);
  }

  /** The incoming order's limit excludes the maker's price. */
  predicate Beyond(o: Order, m: Order) {
    if o.side.Buy? then m.price > o.price else m.price < o.price
  }

  /** An order still working: active, or just filled to zero. */
  ghost predicate Working(s: State, id: string) {
    id in s.orders && (s.orders[id].remaining > 0 ==> s.orders[id].Active())
  }

  /** One pass of the matching loop, and whether it goes round again. */
  datatype Turn = Turn(state: State, more: bool)

  /** Trade once with the best opposing order; stop when the order is spent, nothing opposes it, the best
      price is beyond its limit, or the best order is its owner's own. `index` counts the trades so far. */
  function MatchTurn(s: State, id: string, index: nat): (r: Turn)
    requires id in s.orders
    ensures r.state.orders.Keys == s.orders.Keys
    ensures r.more ==> 0 <= r.state.orders[id].remaining < s.orders[id].remaining
  {
    var o := s.orders[id];
    if o.remaining <= 0 then Turn(s, false)
    else match Best(s, o.symbol, o.side.Opposite())
      case None => Turn(s, false)
      case Some(maker) =>
        if Beyond(o, s.orders[maker]) then Turn(s, false)
        else if s.orders[maker].owner == o.owner then Turn(Release(s, id, SelfTradePrevention), false)
        else Turn(Fill(s, id, maker, index + 1), true)
  }

  /** The matching loop. */
  function Match(s: State, id: string, index: nat): (t: State)
    requires id in s.orders
    ensures t.orders.Keys == s.orders.Keys
    decreases s.orders[id].remaining
  {
    var turn := MatchTurn(s, id, index);
    if turn.more then Match(turn.state, id, index + 1) else turn.state
  }

  // ---------------------------------------------------------------- commands

  function DayOf(timestamp: int): int { timestamp / 86400 }

  /** `UTCSession.permits`; day 0 of the epoch was a Thursday, Monday counting as 0. */
  predicate SessionPermits(timestamp: int, session: Session) {
    (DayOf(timestamp) + 3) % 7 in session.weekdays
    && session.startMinute <= (timestamp % 86400) / 60 < session.endMinute
  }

  /** Prior-day orders among the first `n` ids are released. */
  function Expire(s: State, n: nat, day: int): State
    requires n <= |s.ids|
  {
    if n == 0 then s else ExpireOne(Expire(s, n - 1, day), s.ids[n - 1], day)
  }

  function ExpireOne(s: State, id: string, day: int): State {
    if id in s.orders && s.orders[id].Active() && s.orders[id].day != day then Release(s, id, DayExpired) else s
  }

  function Usage(s: State, owner: string, symbol: string, day: int): int {
    var key := (owner, symbol, day);
    if key in s.daily then s.daily[key] else 0
  }

  function BodyOrder(b: Body, owner: string, seqno: int, timestamp: int): Order
    requires b.New?
  {
    Order(b.requestId, b.orderId, b.symbol, b.side, b.price, b.quantity, owner, seqno, timestamp, DayOf(timestamp),
          b.quantity, 0, Open, NoReason)
  }

  /** Why a new order is refused, in the order the source checks. */
  function Refusal(s: State, c: Command): Option<Rejection>
    requires c.body.New?
  {
    var b := c.body;
    var o := BodyOrder(b, c.owner, c.seqno, c.timestamp);
    if b.orderId in s.orders then Some(OrderIdExists)
    else if b.symbol !in s.settings.symbols then Some(UnknownSymbol)
    else if !SessionPermits(c.timestamp, s.settings.session) then Some(SessionClosed)
    else if Usage(s, c.owner, b.symbol, DayOf(c.timestamp)) + b.quantity > s.settings.dailyLimit
      then Some(DailySubmittedVolumeLimit)
    else if Line(s.accounts, o.Line()).available < o.Amount()
      then Some(if b.side.Buy? then InsufficientCash else InsufficientShares)
    else None
  }

  /** Reserve for a new order and enter it, still unmatched. */
  function Enter(s: State, c: Command): State
    requires c.body.New?
  {
    var b := c.body;
    var o := BodyOrder(b, c.owner, c.seqno, c.timestamp);
    var key := (c.owner, b.symbol, DayOf(c.timestamp));
    s.(accounts := Add(s.accounts, o.Line(), -o.Amount(), o.Amount()),
       daily := s.daily[key := Usage(s, c.owner, b.symbol, DayOf(c.timestamp)) + b.quantity],
       orders := s.orders[b.orderId := o], ids := s.ids + [b.orderId])
  }

  /** Body fields the source validates before touching any state. */
  predicate Admissible(s: State, c: Command) {
    && 2 <= c.seqno <= 1001 && 1 <= c.timestamp <= MAX_TIMESTAMP
    && c.seqno == s.lastSeq + 1 && c.timestamp >= s.lastTimestamp && c.owner in s.settings.owners
    && (c.body.New? ==> 1 <= c.body.price <= 100_000_000 && 1 <= c.body.quantity <= 1_000_000)
  }

  /** The state in which an admissible command is decided: cursor advanced and old orders expired. */
  function Opened(s: State, c: Command): State {
    Expire(s.(lastSeq := c.seqno, lastTimestamp := c.timestamp), |s.ids|, DayOf(c.timestamp))
  }

  /** What expiry and matching never touch. */
  ghost predicate SameFrame(s: State, t: State) {
    && t.settings == s.settings && t.ids == s.ids && t.lastSeq == s.lastSeq && t.orders.Keys == s.orders.Keys
    && t.daily == s.daily && t.results == s.results && t.lastTimestamp == s.lastTimestamp
    && forall id :: id in s.orders ==> t.orders[id].seqno == s.orders[id].seqno
  }

  lemma {:induction false} ExpireKeepsFrame(s: State, n: nat, day: int)
    requires n <= |s.ids|
    ensures SameFrame(s, Expire(s, n, day))
  {
    if n > 0 { ExpireKeepsFrame(s, n - 1, day); }
  }

  lemma ExpireOneKeepsWf(s: State, id: string, day: int)
    requires Wf(s)
    ensures Wf(ExpireOne(s, id, day)) && ExpireOne(s, id, day).ids == s.ids
  {
    if id in s.orders && s.orders[id].Active() { ReleaseKeepsWf(s, id, DayExpired); }
  }

  lemma {:induction false} ExpireKeepsWf(s: State, n: nat, day: int)
    requires Wf(s) && n <= |s.ids|
    ensures Wf(Expire(s, n, day)) && Expire(s, n, day).ids == s.ids
  {
    if n > 0 {
      ExpireKeepsWf(s, n - 1, day);
      ExpireOneKeepsWf(Expire(s, n - 1, day), s.ids[n - 1], day);
    }
  }

  /** Moving the cursor on keeps a state well-formed. */
  lemma CursorKeepsWf(s: State, c: Command)
    requires Wf(s) && Admissible(s, c)
    ensures var u := s.(lastSeq := c.seqno, lastTimestamp := c.timestamp);
      Wf(u) && forall id :: id in u.orders ==> u.orders[id].seqno < c.seqno
  {
    var u := s.(lastSeq := c.seqno, lastTimestamp := c.timestamp);
    forall id | id in u.orders
      ensures OrderOk(u.settings, u.lastSeq, id, u.orders[id]) && u.orders[id].seqno < c.seqno
    {
      assert OrderOk(s.settings, s.lastSeq, id, s.orders[id]);
    }
  }

  lemma OpenedIsWf(s: State, c: Command)
    requires Wf(s) && Admissible(s, c)
    ensures var t := Opened(s, c);
      Wf(t) && SameFrame(s.(lastSeq := c.seqno, lastTimestamp := c.timestamp), t)
        && forall id :: id in t.orders ==> t.orders[id].seqno < c.seqno
  {
    hide Wf, Expire;
    var u := s.(lastSeq := c.seqno, lastTimestamp := c.timestamp);
    CursorKeepsWf(s, c);
    ExpireKeepsWf(u, |u.ids|, DayOf(c.timestamp));
    ExpireKeepsFrame(u, |u.ids|, DayOf(c.timestamp));
  }

  lemma EnterKeepsWf(s: State, c: Command)
    requires Wf(s) && c.body.New? && c.owner in s.settings.owners && Refusal(s, c).None?
    requires s.lastSeq == c.seqno && (forall id :: id in s.orders ==> s.orders[id].seqno < c.seqno)
    requires c.body.price > 0 && c.body.quantity > 0
    ensures Wf(Enter(s, c)) && Working(Enter(s, c), c.body.orderId)
  {
    var t := Enter(s, c);
    forall k | k in t.orders ensures OrderOk(t.settings, t.lastSeq, k, t.orders[k]) {
      if k in s.orders { assert OrderOk(s.settings, s.lastSeq, k, s.orders[k]); }
    }
  }

  /** Deciding a cancellation. */
  function DoCancel(t: State, c: Command): State {
    var id := c.body.orderId;
    if id !in t.orders || t.orders[id].owner != c.owner then Answer(t, c, Rejected(id, OwnedOrderNotFound))
    else if t.orders[id].Active() then Answer(Release(t, id, UserCancel), c, Accepted(id, Canceled))
    else if t.orders[id].status.Filled? then Answer(t, c, Rejected(id, OrderAlreadyFilled))
    else Answer(t, c, Accepted(id, Canceled))
  }

  /** Deciding a new order. */
  function DoNew(t: State, c: Command): State
    requires c.body.New?
  {
    var id := c.body.orderId;
    match Refusal(t, c)
    case Some(why) => Answer(t, c, Rejected(id, why))
    case None =>
      var u := Match(Enter(t, c), id, 0);
      Answer(u, c, Accepted(id, u.orders[id].status))
  }

  /** `reduce_command` after genesis; None is the ValueError that leaves the state alone. */
  function Reduce(s: State, c: Command): Option<State> {
    if !Admissible(s, c) then None
    else Some(if c.body.Cancel? then DoCancel(Opened(s, c), c) else DoNew(Opened(s, c), c))
  }

  function Answer(s: State, c: Command, o: Outcome): State {
    s.(results := s.results[c.seqno := o])
  }

  lemma TurnKeepsFrame(s: State, id: string, index: nat)
    requires id in s.orders
    ensures SameFrame(s, MatchTurn(s, id, index).state)
  {
  }

  lemma {:induction false} MatchKeepsFrame(s: State, id: string, index: nat)
    requires id in s.orders
    ensures SameFrame(s, Match(s, id, index))
    decreases s.orders[id].remaining
  {
    var turn := MatchTurn(s, id, index);
    TurnKeepsFrame(s, id, index);
    if turn.more { MatchKeepsFrame(turn.state, id, index + 1); }
  }

  /** The maker the loop picks rests opposite the incoming order. */
  lemma PickedMakerTrades(s: State, id: string)
    requires Wf(s) && Working(s, id) && s.orders[id].remaining > 0
    requires Best(s, s.orders[id].symbol, s.orders[id].side.Opposite()).Some?
    ensures Tradable(s, id, Best(s, s.orders[id].symbol, s.orders[id].side.Opposite()).value)
  {
  }

  lemma TurnKeepsWf(s: State, id: string, index: nat)
    requires Wf(s) && Working(s, id)
    ensures var turn := MatchTurn(s, id, index); Wf(turn.state) && (turn.more ==> Working(turn.state, id))
  {
    var o := s.orders[id];
    var best := Best(s, o.symbol, o.side.Opposite());
    if o.remaining > 0 && best.Some? && !Beyond(o, s.orders[best.value]) {
      PickedMakerTrades(s, id);
      if s.orders[best.value].owner == o.owner {
        ReleaseKeepsWf(s, id, SelfTradePrevention);
      } else {
        FillKeepsWf(s, id, best.value, index + 1);
      }
    }
  }

  lemma {:induction false} MatchKeepsWf(s: State, id: string, index: nat)
    requires Wf(s) && Working(s, id)
    ensures Wf(Match(s, id, index))
    decreases s.orders[id].remaining
  {
    var turn := MatchTurn(s, id, index);
    TurnKeepsWf(s, id, index);
    if turn.more { MatchKeepsWf(turn.state, id, index + 1); }
  }

  lemma DoNewKeepsWf(t: State, c: Command)
    requires Wf(t) && c.body.New? && c.owner in t.settings.owners && c.body.price > 0 && c.body.quantity > 0
    requires t.lastSeq == c.seqno && forall id :: id in t.orders ==> t.orders[id].seqno < c.seqno
    ensures Wf(DoNew(t, c)) && DoNew(t, c).settings == t.settings && DoNew(t, c).lastSeq == t.lastSeq
  {
    if Refusal(t, c).None? {
      EnterKeepsWf(t, c);
      MatchKeepsWf(Enter(t, c), c.body.orderId, 0);
      MatchKeepsFrame(Enter(t, c), c.body.orderId, 0);
    }
  }

  lemma DoCancelKeepsWf(t: State, c: Command)
    requires Wf(t)
    ensures Wf(DoCancel(t, c)) && DoCancel(t, c).settings == t.settings && DoCancel(t, c).lastSeq == t.lastSeq
  {
    var id := c.body.orderId;
    if id in t.orders && t.orders[id].Active() { ReleaseKeepsWf(t, id, UserCancel); }
  }

  /** Every step from a well-formed state reaches a well-formed state, one sequence number on. */
  lemma ReduceKeepsWf(s: State, c: Command)
    requires Wf(s) && Reduce(s, c).Some?
    ensures var t := Reduce(s, c).value; Wf(t) && t.settings == s.settings && t.lastSeq == s.lastSeq + 1
  {
    hide Wf, Expire, DoNew, DoCancel;
    var t := Opened(s, c);
    OpenedIsWf(s, c);
    if c.body.New? {
      DoNewKeepsWf(t, c);
    } else {
      DoCancelKeepsWf(t, c);
    }
  }
}
