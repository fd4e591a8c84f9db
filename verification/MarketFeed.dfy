/** The market feed: batches cut from the command log, and the projection that follows them.
    Every projection the feed can build is the engine's own state at the log position its head names. */
module MarketFeed {
  import opened Wrappers
  import opened Sorting
  import opened Digests
  import opened Exchange
  import opened Ledger
  import opened Evolution
  import opened Books

  // ---------------------------------------------------------------- command histories and their chain

  datatype Event = Opening(rules: Settings) | Sequenced(command: Command)

  /** A command log: genesis, then commands. */
  datatype History = History(rules: Settings, commands: seq<Command>)

  type Hash = string

  /** `entry`: the hash of one row over its sequence number, the previous hash and its event. */
  type RowHash = Digest<Event>

  function Length(x: History): nat { |x.commands| + 1 }

  function Before(x: History): History
    requires x.commands != []
  {
    x.(commands := x.commands[..|x.commands| - 1])
  }

  /** The log cut after its first `seqno` rows. */
  function Prefix(x: History, seqno: int): History
    requires 1 <= seqno <= Length(x)
  {
    x.(commands := x.commands[..seqno - 1])
  }

  function Head(h: RowHash, x: History): Hash
    decreases |x.commands|
  {
    if x.commands == [] then h(1, ZERO, Opening(x.rules))
    else h(Length(x), Head(h, Before(x)), Sequenced(x.commands[|x.commands| - 1]))
  }

  /** Without collisions a head names one log. */
  lemma {:induction false} HeadNamesHistory(h: RowHash, x: History, y: History)
    requires CollisionFree(h) && Head(h, x) == Head(h, y)
    ensures x == y
    decreases |x.commands|
  {
    if x.commands != [] && y.commands != [] {
      HeadNamesHistory(h, Before(x), Before(y));
      assert x.commands == Before(x).commands + [x.commands[|x.commands| - 1]];
      assert y.commands == Before(y).commands + [y.commands[|y.commands| - 1]];
    }
  }

  ghost predicate Genuine(x: History) {
    SettingsOk(x.rules) && Replay(x.rules, x.commands).Some?
  }

  function StateOf(x: History): State
    requires Replay(x.rules, x.commands).Some?
  {
    Replay(x.rules, x.commands).value
  }

  function BooksAt(x: History): Books
    requires Replay(x.rules, x.commands).Some?
  {
    var s := StateOf(x);
    BooksOf(s.orders, s.ids, x.rules.symbols)
  }

  lemma {:induction false} PrefixIsGenuine(x: History, seqno: int)
    requires Genuine(x) && 1 <= seqno <= Length(x)
    ensures Genuine(Prefix(x, seqno))
    decreases |x.commands|
  {
    if seqno < Length(x) {
      PrefixIsGenuine(Before(x), seqno);
      assert Prefix(Before(x), seqno) == Prefix(x, seqno);
    } else {
      assert Prefix(x, seqno) == x;
    }
  }

  // ---------------------------------------------------------------- batches

  datatype Batch = Batch(seqno: int, previous: Hash, head: Hash, books: Books, orders: seq<Order>, trades: seq<Trade>)

  /** The orders that are new or changed, in the state's order. */
  function Changed(before: map<string, Order>, after: map<string, Order>, ids: seq<string>): (r: seq<Order>)
  {
    if ids == [] then []
    else
      var rest := Changed(before, after, ids[1..]);
      if ids[0] in after && (ids[0] !in before || before[ids[0]] != after[ids[0]]) then [after[ids[0]]] + rest else rest
  }

  /** `market_batch` for the last row of a log. */
  function BatchOf(h: RowHash, x: History): Batch
    requires Genuine(x)
  {
    var s := StateOf(x);
    if x.commands == [] then
      Batch(1, ZERO, Head(h, x), BookDiff(map[], BooksAt(x)), Changed(map[], s.orders, s.ids), s.trades)
    else
      EarlierIsGenuine(x);
      var b := StateOf(Before(x));
      Batch(Length(x), Head(h, Before(x)), Head(h, x), BookDiff(BooksAt(Before(x)), BooksAt(x)),
            Changed(b.orders, s.orders, s.ids), s.trades[Min(|b.trades|, |s.trades|)..])
  }

  lemma EarlierIsGenuine(x: History)
    requires Genuine(x) && x.commands != []
    ensures Genuine(Before(x))
  {
  }

  // ---------------------------------------------------------------- the projection

  datatype Projection = Projection(seqno: int, head: Hash, epoch: int, rules: Settings, books: Books,
                                   orders: map<string, Order>, ids: seq<string>, trades: seq<Trade>)

  datatype Snapshot = Snapshot(seqno: int, head: Hash, state: State)

  datatype Fault = Initializing | Conflict | Gap | Invalid

  /** The market database: the projection row, its replacement count and the retained batches.
      The source keeps each retained batch twice, as a fingerprint and in public form. */
  datatype Store = Store(view: Option<Projection>, resyncs: nat, recent: seq<Batch>)

  /** Sequence, epoch-free content of a projection at a log position. */
  function ProjectionOf(h: RowHash, x: History, epoch: int): Projection
    requires Genuine(x)
  {
    var s := StateOf(x);
    Projection(Length(x), Head(h, x), epoch, x.rules, BooksAt(x), s.orders, s.ids, s.trades)
  }

  function SnapshotOf(h: RowHash, x: History): Snapshot
    requires Genuine(x)
  {
    Snapshot(Length(x), Head(h, x), StateOf(x))
  }

  /** The execution checks of `apply`: no repeated trade, dense numbering, this batch's sequence, known symbols. */
  predicate TradesFollow(trades: seq<Trade>, news: seq<Trade>, symbols: seq<string>, seqno: int) {
    var last := if trades == [] then 0 else trades[|trades| - 1].executionSeq;
    forall i :: 0 <= i < |news| ==>
      && news[i].executionSeq == last + i + 1 && news[i].seqno == seqno && news[i].symbol in symbols
      && (forall k :: 0 <= k < |trades| ==> TradeId(trades[k]) != TradeId(news[i]))
      && (forall k :: 0 <= k < i ==> TradeId(news[k]) != TradeId(news[i]))
  }

  /** The identifier text is made of exactly these two numbers. */
  function TradeId(t: Trade): (int, nat) { (t.seqno, t.index) }

  /** The order checks of `apply`: new orders are this command's, known ones keep identity and never regress. */
  predicate OrdersFollow(p: Projection, b: Batch) {
    forall i :: 0 <= i < |b.orders| ==>
      && b.orders[i].symbol in p.rules.symbols
      && if b.orders[i].orderId in p.orders then Advances(p.orders[b.orders[i].orderId], b.orders[i])
         else b.orders[i].seqno == b.seqno
  }

  function Merge(orders: map<string, Order>, updates: seq<Order>): map<string, Order>
    decreases |updates|
  {
    if updates == [] then orders else Merge(orders[updates[0].orderId := updates[0]], updates[1..])
  }

  function MergeIds(orders: map<string, Order>, ids: seq<string>, updates: seq<Order>): seq<string>
    decreases |updates|
  {
    if updates == [] then ids
    else MergeIds(orders[updates[0].orderId := updates[0]], if updates[0].orderId in orders then ids
        else ids + [updates[0].orderId], updates[1..])
  }

  /** The patched content, before the cursor moves. */
  function Patch(p: Projection, b: Batch): Projection {
    p.(books := PatchedBooks(p.books, b.books), orders := Merge(p.orders, b.orders),
       ids := MergeIds(p.orders, p.ids, b.orders), trades := p.trades + b.trades)
  }

  /** `validate_projection`: books are what the open orders make, executions name them and add up to their fills. */
  predicate Reconciles(p: Projection) {
    && (forall id :: id in p.orders ==> p.orders[id].owner in p.rules.owners && p.orders[id].orderId == id)
    && (forall m :: m in p.books ==> p.books[m] == LevelsOf(p.orders, p.ids, m))
    && (forall i :: 0 <= i < |p.trades| ==> References(p.orders, p.trades[i]))
    && (forall id :: id in p.orders ==> p.orders[id].filled == Volume(p.trades, id))
  }

  predicate References(orders: map<string, Order>, t: Trade) {
    && t.buyOrder in orders && t.sellOrder in orders
    && var bid, ask := orders[t.buyOrder], orders[t.sellOrder];
    bid.owner == t.buyer && ask.owner == t.seller && bid.side.Buy? && ask.side.Sell?
    && bid.symbol == t.symbol == ask.symbol && ask.price <= t.price <= bid.price
  }

  /** The checks between the gap test and the commit. */
  predicate Follows(p: Projection, b: Batch) {
    && (forall m :: m in b.books ==> m in p.books) && TradesFollow(p.trades, b.trades, p.rules.symbols, b.seqno)
         && OrdersFollow(p, b) && Reconciles(Patch(p, b))
  }

  function Receipt(recent: seq<Batch>, seqno: int): Option<Batch> {
    if recent == [] then None else if recent[0].seqno == seqno then Some(recent[0]) else Receipt(recent[1..], seqno)
  }

  /** Retention: rows at or below the limit go. */
  function Retained(recent: seq<Batch>, limit: int): seq<Batch> {
    if recent == [] then [] else (if recent[0].seqno <= limit then [] else [recent[0]]) + Retained(recent[1..], limit)
  }

  const WINDOW := 8

  /** `apply`: the next batch, a verified repeat, or a fault that leaves the store alone. */
  function Apply(st: Store, b: Batch, epoch: int): Result<Store, Fault> {
    if st.view.None? then Err(Initializing)
    else
      var p := st.view.value;
      if epoch < p.epoch then Err(Conflict)
      else if b.seqno <= p.seqno then
        match Receipt(st.recent, b.seqno)
        case None => Err(Gap)
        case Some(r) => if r != b then Err(Conflict) else Ok(st)
      else if b.seqno != p.seqno + 1 || b.previous != p.head then Err(Gap)
      else if !Follows(p, b) then Err(Invalid)
      else Ok(Store(Some(Patch(p, b).(seqno := b.seqno, head := b.head, epoch := epoch)), st.resyncs,
                    Retained(st.recent + [b], b.seqno - WINDOW)))
  }

  /** `replace`: install a snapshot unless it regresses or contradicts the projection. */
  function Replace(st: Store, snapshot: Snapshot, epoch: int): Result<Store, Fault> {
    var s := snapshot.state;
    var value :=
      Projection(snapshot.seqno, snapshot.head, epoch, s.settings, BooksOf(s.orders, s.ids, s.settings.symbols),
          s.orders, s.ids, s.trades);
    if st.view.None? then Ok(Store(Some(value), 1, []))
    else
      var p := st.view.value;
      if epoch < p.epoch || value.seqno < p.seqno then Err(Conflict)
      else if value.seqno == p.seqno
        && (value.head != p.head || value.books != p.books || value.orders != p.orders || value.trades != p.trades)
      then Err(Conflict)
      else if value == p then Ok(st)
      else Ok(Store(Some(value), st.resyncs + 1, []))
  }

  // ---------------------------------------------------------------- the next batch carries a projection over

  lemma SuccessorState(x: History)
    requires Genuine(x) && x.commands != []
    ensures Genuine(Before(x))
    ensures var b := StateOf(Before(x)); var c := x.commands[|x.commands| - 1];
      Reduce(b, c) == Some(StateOf(x)) && Evolves(b, StateOf(x), c.seqno, 0) && c.seqno == Length(x)
      && Sound(b) && Sound(StateOf(x)) && b.settings == x.rules && StateOf(x).settings == x.rules
      && forall k :: 0 <= k < |b.trades| ==> b.trades[k].seqno < c.seqno
  {
    hide Reduce, Sound, Evolves;
    EarlierIsGenuine(x);
    var c := x.commands[|x.commands| - 1];
    ReplayIsSound(x.rules, Before(x).commands);
    ReplayIsSound(x.rules, x.commands);
    ReplayTradesAreOld(x.rules, Before(x).commands);
    SoundIsWf(StateOf(Before(x)));
    ReduceEvolves(StateOf(Before(x)), c);
    AdmittedSequence(StateOf(Before(x)), c);
  }

  lemma AdmittedSequence(s: State, c: Command)
    requires Reduce(s, c).Some?
    ensures c.seqno == s.lastSeq + 1
  {
  }

  /** Merging exactly the changed orders rebuilds the later orders. */
  lemma {:induction false} MergeChanged(before: map<string, Order>, after: map<string, Order>, ids: seq<string>,
      orders: map<string, Order>)
    requires forall i :: 0 <= i < |ids| ==> ids[i] in after && after[ids[i]].orderId == ids[i]
    ensures var r := Merge(orders, Changed(before, after, ids));
      && (forall id :: id in r <==> id in orders || (id in ids && (id !in before || before[id] != after[id])))
      && (forall id :: id in r ==> r[id] == if id in ids && (id !in before || before[id] != after[id]) then after[id]
           else orders[id])
    decreases |ids|
  {
    if ids != [] {
      var id := ids[0];
      var next := if id !in before || before[id] != after[id] then orders[id := after[id]] else orders;
      assert forall i :: 0 <= i < |ids[1..]| ==> ids[1..][i] == ids[i + 1];
      MergeChanged(before, after, ids[1..], next);
      assert ids == [id] + ids[1..];
      var u := Changed(before, after, ids);
      if id !in before || before[id] != after[id] { assert u[1..] == Changed(before, after, ids[1..]); }
    }
  }

  /** The merged enumeration is the later one: known orders keep their places and new ones follow. */
  lemma {:induction false} MergeIdsChanged(before: map<string, Order>, after: map<string, Order>, ids: seq<string>,
      n: nat, orders: map<string, Order>)
    requires n <= |ids| && Distinct(ids)
    requires forall i :: 0 <= i < |ids| ==> ids[i] in after && after[ids[i]].orderId == ids[i]
    requires forall id :: id in before ==> id in orders
    requires forall i :: 0 <= i < |ids| ==> (ids[i] in orders <==> i < n) && (ids[i] in before <==> i < n)
    ensures forall prior: seq<string> :: MergeIds(orders, prior, Changed(before, after, ids)) == prior + ids[n..]
    decreases |ids|
  {
    if ids == [] {
    } else {
      var id, rest := ids[0], ids[1..];
      var next := if id !in before || before[id] != after[id] then orders[id := after[id]] else orders;
      assert forall i :: 0 <= i < |rest| ==> rest[i] == ids[i + 1];
      MergeIdsChanged(before, after, rest, if n == 0 then 0 else n - 1, next);
      var u := Changed(before, after, ids);
      if id !in before || before[id] != after[id] { assert u[1..] == Changed(before, after, rest); }
      forall prior: seq<string> ensures MergeIds(orders, prior, u) == prior + ids[n..] {
        if n == 0 {
          assert (prior + [id]) + rest == prior + ids;
        } else {
          assert rest[n - 1..] == ids[n..];
        }
      }
    }
  }

  lemma {:induction false} ChangedMembers(before: map<string, Order>, after: map<string, Order>, ids: seq<string>)
    requires forall i :: 0 <= i < |ids| ==> ids[i] in after && after[ids[i]].orderId == ids[i]
    ensures forall u :: u in Changed(before, after, ids) ==> u.orderId in ids && u == after[u.orderId]
    decreases |ids|
  {
    if ids != [] {
      assert forall i :: 0 <= i < |ids[1..]| ==> ids[1..][i] == ids[i + 1];
      ChangedMembers(before, after, ids[1..]);
    }
  }

  lemma StateIds(s: State)
    requires Wf(s)
    ensures Distinct(s.ids)
      && (forall i :: 0 <= i < |s.ids| ==> s.ids[i] in s.orders && s.orders[s.ids[i]].orderId == s.ids[i])
    ensures forall id :: id in s.orders ==> id in s.ids && OrderOk(s.settings, s.lastSeq, id, s.orders[id])
  {
    forall i | 0 <= i < |s.ids| ensures s.ids[i] in s.orders && s.orders[s.ids[i]].orderId == s.ids[i] {
      assert s.ids[i] in s.ids;
      assert OrderOk(s.settings, s.lastSeq, s.ids[i], s.orders[s.ids[i]]);
    }
  }

  lemma MergedOrders(b: State, t: State)
    requires Wf(t) && forall id :: id in b.orders ==> id in t.orders
    ensures Merge(b.orders, Changed(b.orders, t.orders, t.ids)) == t.orders
  {
    hide Wf, OrderOk, Changed, Merge;
    StateIds(t);
    MergeChanged(b.orders, t.orders, t.ids, b.orders);
  }

  lemma MergedIds(b: State, t: State)
    requires Wf(b) && Wf(t) && b.ids <= t.ids && forall id :: id in b.orders ==> id in t.orders
    ensures MergeIds(b.orders, b.ids, Changed(b.orders, t.orders, t.ids)) == t.ids
  {
    hide Wf, OrderOk, Changed, MergeIds;
    StateIds(b);
    StateIds(t);
    var n := |b.ids|;
    forall i | 0 <= i < |t.ids| ensures t.ids[i] in b.orders <==> i < n {
      if i < n { assert t.ids[i] == b.ids[i]; }
      if t.ids[i] in b.orders {
        var j :| 0 <= j < n && b.ids[j] == t.ids[i];
        assert t.ids[j] == b.ids[j];
      }
    }
    MergeIdsChanged(b.orders, t.orders, t.ids, n, b.orders);
    assert b.ids + t.ids[n..] == t.ids;
  }

  lemma EvolvedParts(b: State, t: State, seqno: int)
    requires Evolves(b, t, seqno, 0)
    ensures b.ids <= t.ids && b.trades <= t.trades && forall id :: id in b.orders ==> id in t.orders
  {
  }

  lemma NextBatchOrders(h: RowHash, x: History, epoch: int)
    requires Genuine(x) && x.commands != []
    ensures Genuine(Before(x)) && OrdersFollow(ProjectionOf(h, Before(x), epoch), BatchOf(h, x))
  {
    hide Sound, Evolves, TradesEvolve, Wf;
    SuccessorState(x);
    var b, t := StateOf(Before(x)), StateOf(x);
    SoundIsWf(t);
    StateIds(t);
    ChangedMembers(b.orders, t.orders, t.ids);
    EvolvedOrders(b, t, Length(x));
    var us := BatchOf(h, x).orders;
    forall i | 0 <= i < |us|
      ensures us[i].symbol in x.rules.symbols
        && if us[i].orderId in b.orders then Advances(b.orders[us[i].orderId], us[i]) else us[i].seqno == Length(x)
    {
      assert us[i] in us;
    }
  }

  lemma EvolvedOrders(b: State, t: State, seqno: int)
    requires Evolves(b, t, seqno, 0)
    ensures OrdersEvolve(b, t, seqno)
  {
  }

  lemma NewTrades(b: State, t: State, seqno: int, i: nat)
    requires Executions(b) && Executions(t) && Wf(t) && TradesEvolve(b, t, seqno, 0) && i < |t.trades| - |b.trades|
    ensures var e := t.trades[|b.trades| + i];
      e.executionSeq == |b.trades| + i + 1 && e.seqno == seqno && e.index == i + 1 && e.symbol in t.settings.symbols
  {
    hide Volume, Wf;
    StateIds(t);
    var e := t.trades[|b.trades| + i];
    assert TradeOk(t.orders, e) && OrderOk(t.settings, t.lastSeq, e.buyOrder, t.orders[e.buyOrder]);
  }

  lemma LastExecution(s: State)
    requires Executions(s) && s.trades != []
    ensures s.trades[|s.trades| - 1].executionSeq == |s.trades|
  {
  }

  lemma NextTradesFollow(b: State, t: State, seqno: int)
    requires Executions(b) && Executions(t) && Wf(t) && TradesEvolve(b, t, seqno, 0)
    requires forall k :: 0 <= k < |b.trades| ==> b.trades[k].seqno < seqno
    ensures TradesFollow(b.trades, t.trades[|b.trades|..], t.settings.symbols, seqno)
  {
    hide Wf, Executions;
    var news := t.trades[|b.trades|..];
    if b.trades != [] { LastExecution(b); }
    forall i | 0 <= i < |news|
      ensures news[i].executionSeq == |b.trades| + i + 1 && news[i].seqno == seqno && news[i].index == i + 1
        && news[i].symbol in t.settings.symbols
    {
      NewTrades(b, t, seqno, i);
    }
  }

  lemma NextBatchTrades(h: RowHash, x: History, epoch: int)
    requires Genuine(x) && x.commands != []
    ensures Genuine(Before(x))
    ensures var p := ProjectionOf(h, Before(x), epoch);
      TradesFollow(p.trades, BatchOf(h, x).trades, x.rules.symbols, Length(x))
  {
    hide OrdersEvolve, TradesEvolve, LinesSound, BookDiff, Changed, Wf, Executions, Head, BooksOf, TradesFollow;
    SuccessorState(x);
    var b, t := StateOf(Before(x)), StateOf(x);
    EvolvedParts(b, t, Length(x));
    NextTradesFollow(b, t, Length(x));
  }

  lemma SoundReconciles(h: RowHash, x: History, epoch: int)
    requires Genuine(x)
    ensures Reconciles(ProjectionOf(h, x, epoch))
  {
    hide LinesSound, Replay, Volume, LevelsOf;
    ReplayIsSound(x.rules, x.commands);
    var s := StateOf(x);
    StateIds(s);
    forall i | 0 <= i < |s.trades| ensures References(s.orders, s.trades[i]) { assert TradeOk(s.orders, s.trades[i]); }
  }

  lemma SameMarkets(b: State, t: State, symbols: seq<string>)
    ensures BooksOf(b.orders, b.ids, symbols).Keys == BooksOf(t.orders, t.ids, symbols).Keys
  {
  }

  lemma PatchIsNext(h: RowHash, x: History, epoch: int, e: int)
    requires Genuine(x) && x.commands != []
    ensures Genuine(Before(x))
    ensures Patch(ProjectionOf(h, Before(x), epoch), BatchOf(h, x)).(seqno := Length(x), head := Head(h, x),
        epoch := e) == ProjectionOf(h, x, e)
  {
    hide Sound, Wf, Evolves, Head, BooksOf, BookDiff, PatchedBooks, Replay, Changed, Merge, MergeIds, LevelsOf,
      AllPositive;
    SuccessorState(x);
    var b, t := StateOf(Before(x)), StateOf(x);
    SoundIsWf(b);
    SoundIsWf(t);
    EvolvedParts(b, t, Length(x));
    MergedOrders(b, t);
    MergedIds(b, t);
    BooksArePositive(b.orders, b.ids, x.rules.symbols);
    BooksArePositive(t.orders, t.ids, x.rules.symbols);
    SameMarkets(b, t, x.rules.symbols);
    BookDiffCarriesOver(BooksAt(Before(x)), BooksAt(x));
    assert b.trades + t.trades[|b.trades|..] == t.trades;
  }

  /** The batch of the next row passes every check and makes the projection exactly the engine's next state. */
  lemma NextBatchFollows(h: RowHash, x: History, epoch: int)
    requires Genuine(x) && x.commands != []
    ensures Genuine(Before(x)) && Follows(ProjectionOf(h, Before(x), epoch), BatchOf(h, x))
  {
    hide Reconciles, Patch, TradesFollow, OrdersFollow, LevelsOf;
    NextBatchOrders(h, x, epoch);
    NextBatchTrades(h, x, epoch);
    PatchIsNext(h, x, epoch, epoch);
    SoundReconciles(h, x, epoch);
    ReconcilesIgnoresCursor(Patch(ProjectionOf(h, Before(x), epoch), BatchOf(h, x)), Length(x), Head(h, x), epoch);
  }

  lemma ReconcilesIgnoresCursor(p: Projection, seqno: int, head: Hash, epoch: int)
    ensures Reconciles(p.(seqno := seqno, head := head, epoch := epoch)) <==> Reconciles(p)
  {
  }

  // ---------------------------------------------------------------- every store the feed can build

  /** `b` is the batch of row `k` of the log. */
  ghost predicate IsRow(h: RowHash, x: History, k: int, b: Batch) {
    1 <= k <= Length(x) && Genuine(Prefix(x, k)) && b == BatchOf(h, Prefix(x, k))
  }

  /** The first retained row. */
  function First(st: Store, x: History): int { Length(x) - |st.recent| + 1 }

  /** The store holds the engine's state at the end of log `x`, and the last few rows of that log. */
  ghost predicate Faithful(h: RowHash, st: Store, x: History, epoch: int) {
    && Genuine(x) && st.view == Some(ProjectionOf(h, x, epoch))
    && |st.recent| < Length(x) && |st.recent| <= WINDOW
    && forall i :: 0 <= i < |st.recent| ==> IsRow(h, x, First(st, x) + i, st.recent[i])
  }

  predicate Successor(x: History, y: History) {
    y.commands != [] && Before(y) == x
  }

  ghost predicate Consecutive(rows: seq<Batch>, first: int) {
    forall i :: 0 <= i < |rows| ==> rows[i].seqno == first + i
  }

  lemma {:induction false} ReceiptAt(rows: seq<Batch>, first: int, seqno: int)
    requires Consecutive(rows, first)
    ensures Receipt(rows, seqno) == if first <= seqno < first + |rows| then Some(rows[seqno - first]) else None
  {
    if rows != [] && rows[0].seqno != seqno {
      assert forall i :: 0 <= i < |rows[1..]| ==> rows[1..][i] == rows[i + 1];
      ReceiptAt(rows[1..], first + 1, seqno);
    }
  }

  lemma {:induction false} RetainedFrom(rows: seq<Batch>, first: int, limit: int)
    requires Consecutive(rows, first) && limit < first + |rows|
    ensures Retained(rows, limit) == if limit < first then rows else rows[limit - first + 1..]
  {
    if rows != [] {
      assert forall i :: 0 <= i < |rows[1..]| ==> rows[1..][i] == rows[i + 1];
      if |rows| > 1 || limit < first { RetainedFrom(rows[1..], first + 1, limit); }
    }
  }

  lemma RowsAreConsecutive(h: RowHash, st: Store, x: History, epoch: int)
    requires Faithful(h, st, x, epoch)
    ensures Consecutive(st.recent, First(st, x))
  {
    forall i | 0 <= i < |st.recent| ensures st.recent[i].seqno == First(st, x) + i {
      assert IsRow(h, x, First(st, x) + i, st.recent[i]);
    }
  }

  lemma RowCarriesOver(h: RowHash, x: History, y: History, k: int, b: Batch)
    requires Successor(x, y) && IsRow(h, x, k, b)
    ensures IsRow(h, y, k, b)
  {
    assert Prefix(y, k) == Prefix(x, k);
  }

  lemma LastRow(h: RowHash, y: History)
    requires Genuine(y)
    ensures IsRow(h, y, Length(y), BatchOf(h, y))
  {
    assert Prefix(y, Length(y)) == y;
  }

  /** These are the rows of the log from row `first` on. */
  ghost predicate RowsFrom(h: RowHash, y: History, first: int, rows: seq<Batch>) {
    forall i :: 0 <= i < |rows| ==> IsRow(h, y, first + i, rows[i])
  }

  lemma RowsGrow(h: RowHash, st: Store, x: History, y: History, epoch: int)
    requires Faithful(h, st, x, epoch) && Genuine(y) && Successor(x, y)
    ensures RowsFrom(h, y, First(st, x), st.recent + [BatchOf(h, y)])
    ensures Consecutive(st.recent + [BatchOf(h, y)], First(st, x))
  {
    hide BatchOf, ProjectionOf, Genuine, IsRow, Prefix;
    var rows := st.recent + [BatchOf(h, y)];
    RowsAreConsecutive(h, st, x, epoch);
    BatchSeqno(h, y);
    LastRow(h, y);
    forall i | 0 <= i < |rows| ensures IsRow(h, y, First(st, x) + i, rows[i]) {
      if i < |st.recent| { RowCarriesOver(h, x, y, First(st, x) + i, st.recent[i]); }
    }
  }

  /** Of the rows up to the end of the log the last few are kept. */
  lemma LastRowsStay(h: RowHash, y: History, first: int, rows: seq<Batch>)
    requires RowsFrom(h, y, first, rows) && Consecutive(rows, first) && first + |rows| == Length(y) + 1
    ensures var kept := Retained(rows, Length(y) - WINDOW);
      |kept| <= |rows| && |kept| <= WINDOW && RowsFrom(h, y, Length(y) - |kept| + 1, kept)
  {
    hide IsRow, Retained, Consecutive;
    var limit := Length(y) - WINDOW;
    RetainedFrom(rows, first, limit);
    if limit >= first {
      var kept := rows[limit - first + 1..];
      forall i | 0 <= i < |kept| ensures IsRow(h, y, limit + 1 + i, kept[i]) {
        assert kept[i] == rows[limit - first + 1 + i];
        assert IsRow(h, y, first + (limit - first + 1 + i), rows[limit - first + 1 + i]);
      }
    }
  }

  lemma RowsAfter(h: RowHash, st: Store, x: History, y: History, epoch: int, e: int)
    requires Faithful(h, st, x, epoch) && Genuine(y) && Successor(x, y)
    ensures Faithful(h,
        Store(Some(ProjectionOf(h, y, e)), st.resyncs, Retained(st.recent + [BatchOf(h, y)], Length(y) - WINDOW)), y, e)
  {
    hide BatchOf, ProjectionOf, Genuine, IsRow, Retained, Consecutive;
    RowsGrow(h, st, x, y, epoch);
    LastRowsStay(h, y, First(st, x), st.recent + [BatchOf(h, y)]);
  }

  lemma BatchSeqno(h: RowHash, y: History)
    requires Genuine(y)
    ensures BatchOf(h, y).seqno == Length(y) && BatchOf(h, y).head == Head(h, y)
    ensures BatchOf(h, y).previous == if y.commands == [] then ZERO else Head(h, Before(y))
  {
  }

  lemma ProjectionCursor(h: RowHash, x: History, epoch: int)
    requires Genuine(x)
    ensures var p := ProjectionOf(h, x, epoch); p.seqno == Length(x) && p.head == Head(h, x) && p.epoch == epoch
  {
  }

  /** Offering the batch of any genuine log, at any time, under any epoch. It is taken exactly when it is the next
      row of the very log the store follows, or repeats one of the retained rows; then the store follows the longer
      log, or does not change. Whatever is ahead and not next is a detected gap. */
  lemma OfferedBatch(h: RowHash, st: Store, x: History, epoch: int, y: History, e: int)
    requires CollisionFree(h) && Faithful(h, st, x, epoch) && Genuine(y)
    ensures var r := Apply(st, BatchOf(h, y), e);
      && (r.Ok? <==>
            e >= epoch && (Successor(x, y) || (First(st, x) <= Length(y) <= Length(x) && y == Prefix(x, Length(y)))))
      && (r.Ok? ==> if Successor(x, y) then Faithful(h, r.value, y, e) else r.value == st)
      && (e >= epoch && Length(y) > Length(x) && !Successor(x, y) ==> r == Err(Gap))
  {
    hide BatchOf, ProjectionOf, Genuine, Follows, Patch, Head, CollisionFree, Retained, Receipt, Prefix;
    var b := BatchOf(h, y);
    BatchSeqno(h, y);
    ProjectionCursor(h, x, epoch);
    if b.seqno <= Length(x) {
      RowsAreConsecutive(h, st, x, epoch);
      ReceiptAt(st.recent, First(st, x), b.seqno);
      if First(st, x) <= b.seqno { RepeatedRow(h, st, x, epoch, y); }
    } else if Successor(x, y) {
      NextBatchFollows(h, y, epoch);
      PatchIsNext(h, y, epoch, e);
      RowsAfter(h, st, x, y, epoch, e);
    } else if b.seqno == Length(x) + 1 && b.previous == Head(h, x) {
      HeadNamesHistory(h, Before(y), x);
    }
  }

  /** Within the retained window an equal fingerprint means the same row of the same log. */
  lemma RepeatedRow(h: RowHash, st: Store, x: History, epoch: int, y: History)
    requires CollisionFree(h) && Faithful(h, st, x, epoch) && Genuine(y) && First(st, x) <= Length(y) <= Length(x)
    ensures st.recent[Length(y) - First(st, x)] == BatchOf(h, y) <==> y == Prefix(x, Length(y))
  {
    hide BatchOf, ProjectionOf, Genuine, Head;
    var row := st.recent[Length(y) - First(st, x)];
    assert IsRow(h, x, Length(y), row);
    BatchSeqno(h, y);
    BatchSeqno(h, Prefix(x, Length(y)));
    if row == BatchOf(h, y) { HeadNamesHistory(h, Prefix(x, Length(y)), y); }
  }

  /** Offering the snapshot of any genuine log: it is installed exactly when it does not go back in epoch or
      sequence and, at the same sequence, is of the same log. */
  lemma OfferedSnapshot(h: RowHash, st: Store, x: History, epoch: int, y: History, e: int)
    requires CollisionFree(h) && Faithful(h, st, x, epoch) && Genuine(y)
    ensures var r := Replace(st, SnapshotOf(h, y), e);
      && (r.Ok? <==> e >= epoch && (Length(y) > Length(x) || y == x))
      && (r.Ok? ==> Faithful(h, r.value, y, e))
  {
    hide Replay, Head, CollisionFree, BooksOf;
    SettingsStay(x);
    SettingsStay(y);
    if Length(x) == Length(y) && Head(h, x) == Head(h, y) { HeadNamesHistory(h, x, y); }
  }

  lemma SettingsStay(x: History)
    requires Genuine(x)
    ensures StateOf(x).settings == x.rules
  {
    ReplayIsSound(x.rules, x.commands);
  }

  lemma FirstSnapshot(h: RowHash, st: Store, y: History, e: int)
    requires Genuine(y) && st.view.None?
    ensures Replace(st, SnapshotOf(h, y), e).Ok? && Faithful(h, Replace(st, SnapshotOf(h, y), e).value, y, e)
  {
    SettingsStay(y);
  }

  // ---------------------------------------------------------------- runs

  datatype Offer = Delivery(source: History, epoch: int) | Resync(source: History, epoch: int)

  /** Offers in order; a fault leaves the store alone. */
  function Offered(h: RowHash, st: Store, o: Offer): Store
    requires Genuine(o.source)
  {
    var r := if o.Delivery? then Apply(st, BatchOf(h, o.source), o.epoch)
      else Replace(st, SnapshotOf(h, o.source), o.epoch);
    if r.Ok? then r.value else st
  }

  function Run(h: RowHash, offers: seq<Offer>): Store
    requires forall i :: 0 <= i < |offers| ==> Genuine(offers[i].source)
  {
    if offers == [] then Store(None, 0, [])
    else Offered(h, Run(h, offers[..|offers| - 1]), offers[|offers| - 1])
  }

  /** Whatever batches and snapshots of whatever genuine logs arrive, in any order and number: the projection is
      empty or exactly the state of the one log its head names. */
  lemma {:induction false} RunIsFaithful(h: RowHash, offers: seq<Offer>) returns (x: History, epoch: int)
    requires CollisionFree(h) && forall i :: 0 <= i < |offers| ==> Genuine(offers[i].source)
    ensures Run(h, offers).view.None? || Faithful(h, Run(h, offers), x, epoch)
  {
    hide Genuine, Apply, Replace, BatchOf, SnapshotOf, Faithful;
    x, epoch := History(Settings([], [], map[], Session({}, 0, 0), 0), []), 0;
    if offers != [] {
      var front, o := offers[..|offers| - 1], offers[|offers| - 1];
      x, epoch := RunIsFaithful(h, front);
      OfferKeepsFaithful(h, Run(h, front), x, epoch, o);
      if Offered(h, Run(h, front), o) != Run(h, front) { x, epoch := o.source, o.epoch; }
    }
  }

  lemma OfferKeepsFaithful(h: RowHash, st: Store, x: History, epoch: int, o: Offer)
    requires CollisionFree(h) && (st.view.None? || Faithful(h, st, x, epoch)) && Genuine(o.source)
    ensures Offered(h, st, o) == st || Faithful(h, Offered(h, st, o), o.source, o.epoch)
  {
    hide BatchOf, SnapshotOf, Faithful, Genuine, Replace, Follows, Patch, Receipt, Retained;
    if st.view.None? {
      if o.Resync? { FirstSnapshot(h, st, o.source, o.epoch); }
    } else if o.Delivery? {
      OfferedBatch(h, st, x, epoch, o.source, o.epoch);
    } else {
      OfferedSnapshot(h, st, x, epoch, o.source, o.epoch);
    }
  }

  // ---------------------------------------------------------------- public deltas

  /** The retained rows beyond a client's cursor, in order. */
  function Newer(rows: seq<Batch>, after: int): seq<Batch> {
    if rows == [] then [] else (if rows[0].seqno > after then [rows[0]] else []) + Newer(rows[1..], after)
  }

  /** `deltas`: refused when the client is ahead, or when a row it needs is no longer retained. */
  function Deltas(st: Store, after: int): Result<seq<Batch>, Fault> {
    if st.view.None? then Err(Initializing)
    else
      var seqno := st.view.value.seqno;
      if after > seqno then Err(Conflict)
      else if after < seqno && (st.recent == [] || after < st.recent[0].seqno - 1) then Err(Gap)
      else Ok(Newer(st.recent, after))
  }

  /** A client applies level updates one after the other. */
  function Caught(books: Books, deltas: seq<Batch>): Books {
    if deltas == [] then books else Caught(PatchedBooks(books, deltas[0].books), deltas[1..])
  }

  lemma {:induction false} NewerFrom(rows: seq<Batch>, first: int, after: int)
    requires Consecutive(rows, first) && first - 1 <= after < first + |rows|
    ensures Newer(rows, after) == rows[after - first + 1..]
  {
    if rows != [] {
      assert forall i :: 0 <= i < |rows[1..]| ==> rows[1..][i] == rows[i + 1];
      if after == first - 1 {
        NewerAll(rows, after);
      } else {
        NewerFrom(rows[1..], first + 1, after);
      }
    }
  }

  lemma {:induction false} NewerAll(rows: seq<Batch>, after: int)
    requires forall i :: 0 <= i < |rows| ==> rows[i].seqno > after
    ensures Newer(rows, after) == rows
  {
    if rows != [] {
      assert forall i :: 0 <= i < |rows[1..]| ==> rows[1..][i] == rows[i + 1];
      NewerAll(rows[1..], after);
    }
  }

  /** The updates of a row carry the books of the row before to its own. */
  lemma RowPatches(h: RowHash, x: History)
    requires Genuine(x) && x.commands != []
    ensures Genuine(Before(x)) && PatchedBooks(BooksAt(Before(x)), BatchOf(h, x).books) == BooksAt(x)
  {
    hide Replay, BooksOf, BookDiff, PatchedBooks, AllPositive, Changed, Head;
    EarlierIsGenuine(x);
    var b, t := StateOf(Before(x)), StateOf(x);
    BooksArePositive(b.orders, b.ids, x.rules.symbols);
    BooksArePositive(t.orders, t.ids, x.rules.symbols);
    SameMarkets(b, t, x.rules.symbols);
    BookDiffCarriesOver(BooksAt(Before(x)), BooksAt(x));
  }

  /** Rows `k + 1` on carry the books at row `k` to the books at the end. */
  lemma {:induction false} RowsCatchUp(h: RowHash, x: History, k: int, rows: seq<Batch>)
    requires Genuine(x) && 1 <= k && |rows| == Length(x) - k
      && forall i :: 0 <= i < |rows| ==> IsRow(h, x, k + 1 + i, rows[i])
    ensures Genuine(Prefix(x, k)) && Caught(BooksAt(Prefix(x, k)), rows) == BooksAt(x)
    decreases |rows|
  {
    hide BooksAt, PatchedBooks, Genuine, BatchOf;
    PrefixIsGenuine(x, k);
    if rows == [] {
      assert Prefix(x, k) == x;
    } else {
      assert IsRow(h, x, k + 1, rows[0]);
      assert Before(Prefix(x, k + 1)) == Prefix(x, k);
      RowPatches(h, Prefix(x, k + 1));
      forall i | 0 <= i < |rows[1..]| ensures IsRow(h, x, k + 2 + i, rows[1..][i]) {
        assert IsRow(h, x, k + 1 + (i + 1), rows[i + 1]);
      }
      RowsCatchUp(h, x, k + 1, rows[1..]);
    }
  }

  /** A client holding the book at its cursor either is told to take a new snapshot, or receives exactly the rows
      it misses, each chained to the one before, and applying them gives the current book. */
  lemma ClientCatchesUp(h: RowHash, st: Store, x: History, epoch: int, after: int)
    requires Faithful(h, st, x, epoch)
    ensures Deltas(st, after).Ok? <==> First(st, x) - 1 <= after <= Length(x)
    ensures Deltas(st, after).Ok? ==>
      var ds := Deltas(st, after).value;
      && 1 <= after && Genuine(Prefix(x, after)) && Caught(BooksAt(Prefix(x, after)), ds) == st.view.value.books
      && |ds| == Length(x) - after
      && forall i :: 0 <= i < |ds| ==> IsRow(h, x, after + 1 + i, ds[i])
  {
    hide BooksAt, Genuine, BatchOf, Head, Newer, Caught;
    RowsAreConsecutive(h, st, x, epoch);
    if First(st, x) - 1 <= after <= Length(x) {
      NewerFrom(st.recent, First(st, x), after);
      var ds := st.recent[after - First(st, x) + 1..];
      forall i | 0 <= i < |ds| ensures IsRow(h, x, after + 1 + i, ds[i]) {
        var j := after - First(st, x) + 1 + i;
        assert IsRow(h, x, First(st, x) + j, st.recent[j]) && ds[i] == st.recent[j];
      }
      RowsCatchUp(h, x, after, ds);
    }
  }

  // ---------------------------------------------------------------- the store, updated in place

  /** The market database; each method is one transaction. */
  class MarketStore {
    var view: Option<Projection>
    var resyncs: nat
    var recent: seq<Batch>

    function Contents(): Store
      reads this
    {
      Store(view, resyncs, recent)
    }

    constructor ()
      ensures Contents() == Store(None, 0, [])
    {
      view, resyncs, recent := None, 0, [];
    }

    /** `apply`, with its update loops. */
    method ApplyBatch(b: Batch, epoch: int) returns (fault: Option<Fault>)
      modifies this
      ensures match Apply(old(Contents()), b, epoch)
        case Ok(st) => fault == None && Contents() == st
        case Err(f) => fault == Some(f) && Contents() == old(Contents())
    {
      if view.None? { return Some(Initializing); }
      var p := view.value;
      if epoch < p.epoch { return Some(Conflict); }
      if b.seqno <= p.seqno {
        var receipt := Receipt(recent, b.seqno);
        if receipt.None? { return Some(Gap); }
        if receipt.value != b { return Some(Conflict); }
        return None;
      }
      if b.seqno != p.seqno + 1 || b.previous != p.head { return Some(Gap); }
      if exists m :: m in b.books && m !in p.books { return Some(Invalid); }
      if !TradesFollow(p.trades, b.trades, p.rules.symbols, b.seqno) || !OrdersFollow(p, b) { return Some(Invalid); }
      var books := PatchBooks(p.books, b.books);
      var value :=
        p.(books := books, orders := Merge(p.orders, b.orders), ids := MergeIds(p.orders, p.ids, b.orders),
            trades := p.trades + b.trades);
      if !Reconciles(value) { return Some(Invalid); }
      view := Some(value.(seqno := b.seqno, head := b.head, epoch := epoch));
      recent := Retained(recent + [b], b.seqno - WINDOW);
      fault := None;
    }

    /** `replace`. */
    method ReplaceWith(snapshot: Snapshot, epoch: int) returns (fault: Option<Fault>)
      modifies this
      ensures match Replace(old(Contents()), snapshot, epoch)
        case Ok(st) => fault == None && Contents() == st
        case Err(f) => fault == Some(f) && Contents() == old(Contents())
    {
      var s := snapshot.state;
      var books := BooksOf(s.orders, s.ids, s.settings.symbols);
      var value := Projection(snapshot.seqno, snapshot.head, epoch, s.settings, books, s.orders, s.ids, s.trades);
      if view.Some? {
        var p := view.value;
        if epoch < p.epoch || value.seqno < p.seqno { return Some(Conflict); }
        if value.seqno == p.seqno {
          if value.head != p.head || value.books != p.books || value.orders != p.orders || value.trades != p.trades {
            return Some(Conflict);
          }
          if value == p { return None; }
        }
      }
      resyncs := if view.Some? then resyncs + 1 else 1;
      view := Some(value);
      recent := [];
      fault := None;
    }
  }
}
