/** The matching engine as the source runs it: balances, orders and the order index changed in place.
    Every method is proved to do exactly what the plain rules of `Exchange` say. */
module Engine {
  import opened Wrappers
  import opened Sorting
  import opened Exchange
  import opened Ledger
  import opened OrderIndex

  // ---------------------------------------------------------------- the index mirrors the orders

  /** A queued slot is an active order of that market and price with that remainder; order `but` stays out. */
  ghost predicate SlotOk(orders: map<string, Order>, m: Market, p: int, slot: Slot, but: Option<string>) {
    && slot.id in orders && but != Some(slot.id)
    && var o := orders[slot.id];
    Resting(o, m.symbol, m.side) && o.price == p && o.remaining == slot.quantity
  }

  ghost predicate Sequenced(orders: map<string, Order>, q: seq<Slot>) {
    forall i, j :: 0 <= i < j < |q| && q[i].id in orders && q[j].id in orders ==>
      orders[q[i].id].seqno < orders[q[j].id].seqno
  }

  ghost predicate QueueOk(orders: map<string, Order>, m: Market, p: int, q: seq<Slot>, but: Option<string>) {
    (forall i :: 0 <= i < |q| ==> SlotOk(orders, m, p, q[i], but)) && Sequenced(orders, q)
  }

  ghost predicate Found(queues: map<Market, Queues>, id: string, o: Order) {
    && var m := Market(o.symbol, o.side);
    m in queues && o.price in queues[m] && Queued(queues[m][o.price], id)
  }

  /** The queues hold exactly the active orders, except `but`, first come first. */
  ghost predicate Mirrors(queues: map<Market, Queues>, orders: map<string, Order>, but: Option<string>) {
    && (forall m, p :: m in queues && p in queues[m] ==> QueueOk(orders, m, p, queues[m][p], but))
    && (forall id :: id in orders && but != Some(id) && orders[id].Active() && orders[id].remaining > 0 ==>
         Found(queues, id, orders[id]))
  }

  /** The front of the best level is the order that outranks all others on its side. */
  lemma FrontIsBest(queues: map<Market, Queues>, orders: map<string, Order>, but: Option<string>, m: Market, p: int)
    requires Mirrors(queues, orders, but) && m in queues && BestPrice(queues[m], m.side, p) && queues[m][p] != []
    requires but.Some? ==> but.value in orders && orders[but.value].side != m.side
    ensures IsBest(orders, m.symbol, m.side, queues[m][p][0].id)
  {
    var q := queues[m][p];
    assert QueueOk(orders, m, p, q, but) && SlotOk(orders, m, p, q[0], but);
    forall x | x in orders && Resting(orders[x], m.symbol, m.side) && x != q[0].id
      ensures Outranks(orders[q[0].id], orders[x])
    {
      var r := orders[x].price;
      assert Found(queues, x, orders[x]) && Market(orders[x].symbol, orders[x].side) == m;
      if r == p {
        var i :| 0 <= i < |q| && q[i].id == x;
        assert SlotOk(orders, m, p, q[i], but) && i > 0;
      } else {
        assert Sign(m.side) * p <= Sign(m.side) * r;
      }
    }
  }

  lemma EmptySideHasNone(queues: map<Market, Queues>, orders: map<string, Order>, but: Option<string>, m: Market)
    requires Mirrors(queues, orders, but) && m in queues && queues[m] == map[]
    requires but.Some? ==> but.value in orders && orders[but.value].side != m.side
    ensures forall x :: x in orders ==> !Resting(orders[x], m.symbol, m.side)
  {
    assert forall x :: x in orders && Market(orders[x].symbol, orders[x].side) == m ==>
      Found(queues, x, orders[x]) == false;
  }

  // ---------------------------------------------------------------- keeping the mirror

  /** Changing an order that is not queued changes nothing for the queues. */
  lemma QueueIgnores(orders: map<string, Order>, m: Market, p: int, q: seq<Slot>, but: Option<string>, id: string,
      o: Order)
    requires QueueOk(orders, m, p, q, but) && forall i :: 0 <= i < |q| ==> q[i].id != id
    ensures QueueOk(orders[id := o], m, p, q, but)
  {
    forall i | 0 <= i < |q| ensures SlotOk(orders[id := o], m, p, q[i], but) { assert SlotOk(orders, m, p, q[i], but); }
  }

  /** The order kept aside may change freely. */
  lemma AsideChanges(queues: map<Market, Queues>, orders: map<string, Order>, id: string, o: Order)
    requires Mirrors(queues, orders, Some(id))
    ensures Mirrors(queues, orders[id := o], Some(id))
  {
    forall m, p | m in queues && p in queues[m] ensures QueueOk(orders[id := o], m, p, queues[m][p], Some(id)) {
      forall i | 0 <= i < |queues[m][p]| ensures queues[m][p][i].id != id {
        assert SlotOk(orders, m, p, queues[m][p][i], Some(id));
      }
      QueueIgnores(orders, m, p, queues[m][p], Some(id), id, o);
    }
  }

  lemma QueueButIrrelevant(orders: map<string, Order>, m: Market, p: int, q: seq<Slot>, but: Option<string>,
      but': Option<string>)
    requires QueueOk(orders, m, p, q, but) && forall i :: 0 <= i < |q| ==> but' != Some(q[i].id)
    ensures QueueOk(orders, m, p, q, but')
  {
    forall i | 0 <= i < |q| ensures SlotOk(orders, m, p, q[i], but') { assert SlotOk(orders, m, p, q[i], but); }
  }

  /** An order that no longer rests need not be kept aside. */
  lemma AsideRejoins(queues: map<Market, Queues>, orders: map<string, Order>, id: string)
    requires Mirrors(queues, orders, Some(id)) && id in orders && !(orders[id].Active() && orders[id].remaining > 0)
    ensures Mirrors(queues, orders, None)
  {
    forall m, p | m in queues && p in queues[m] ensures QueueOk(orders, m, p, queues[m][p], None) {
      QueueButIrrelevant(orders, m, p, queues[m][p], Some(id), None);
    }
    forall x | x in orders && orders[x].Active() && orders[x].remaining > 0 ensures Found(queues, x, orders[x]) {
      assert x != id;
    }
  }

  /** A new order enters aside. */
  lemma AsideEnters(queues: map<Market, Queues>, orders: map<string, Order>, id: string, o: Order)
    requires Mirrors(queues, orders, None) && id !in orders
    ensures Mirrors(queues, orders[id := o], Some(id))
  {
    forall m, p | m in queues && p in queues[m] ensures QueueOk(orders[id := o], m, p, queues[m][p], Some(id)) {
      forall i | 0 <= i < |queues[m][p]| ensures queues[m][p][i].id in orders {
        assert SlotOk(orders, m, p, queues[m][p][i], None);
      }
      QueueIgnores(orders, m, p, queues[m][p], None, id, o);
      QueueButIrrelevant(orders[id := o], m, p, queues[m][p], None, Some(id));
    }
  }

  lemma {:induction false} StripMembers(q: seq<Slot>, id: string)
    ensures forall i :: 0 <= i < |Strip(q, id)| ==> Strip(q, id)[i] in q && Strip(q, id)[i].id != id
    ensures forall x :: x != id && Queued(q, x) ==> Queued(Strip(q, id), x)
  {
    if q != [] {
      var rest := Strip(q[1..], id);
      StripMembers(q[1..], id);
      forall i | 0 <= i < |Strip(q, id)| ensures Strip(q, id)[i] in q && Strip(q, id)[i].id != id {
        if q[0].id == id { assert rest[i] in q[1..]; } else if i > 0 { assert rest[i - 1] in q[1..]; }
      }
      forall x | x != id && Queued(q, x) ensures Queued(Strip(q, id), x) {
        var i :| 0 <= i < |q| && q[i].id == x;
        if i == 0 {
          assert Strip(q, id)[0].id == x;
        } else {
          assert q[1..][i - 1].id == x && Queued(q[1..], x);
          var j :| 0 <= j < |rest| && rest[j].id == x;
          assert Strip(q, id)[if q[0].id == id then j else j + 1].id == x;
        }
      }
    }
  }

  lemma {:induction false} StripSequenced(orders: map<string, Order>, q: seq<Slot>, id: string)
    requires Sequenced(orders, q)
    ensures Sequenced(orders, Strip(q, id))
  {
    if q != [] {
      forall i, j | 0 <= i < j < |q[1..]| && q[1..][i].id in orders && q[1..][j].id in orders
        ensures orders[q[1..][i].id].seqno < orders[q[1..][j].id].seqno
      {
        assert q[1..][i] == q[i + 1] && q[1..][j] == q[j + 1];
      }
      StripSequenced(orders, q[1..], id);
      var rest := Strip(q[1..], id);
      StripMembers(q[1..], id);
      if q[0].id != id {
        forall j | 0 <= j < |rest| && q[0].id in orders && rest[j].id in orders
          ensures orders[q[0].id].seqno < orders[rest[j].id].seqno
        {
          assert rest[j] in q[1..];
          var k :| 0 <= k < |q[1..]| && q[1..][k] == rest[j];
          assert q[k + 1] == rest[j];
        }
      }
    }
  }

  lemma StripQueueOk(orders: map<string, Order>, m: Market, p: int, q: seq<Slot>, but: Option<string>, id: string,
      o: Order)
    requires QueueOk(orders, m, p, q, but)
    ensures QueueOk(orders[id := o], m, p, Strip(q, id), but)
  {
    var r := Strip(q, id);
    StripMembers(q, id);
    StripSequenced(orders, q, id);
    forall i | 0 <= i < |r| ensures SlotOk(orders, m, p, r[i], but) {
      var k :| 0 <= k < |q| && q[k] == r[i];
      assert SlotOk(orders, m, p, q[k], but);
    }
    QueueIgnores(orders, m, p, r, but, id, o);
  }

  /** Dropping an order that stops resting keeps the mirror. */
  lemma DropMirrors(queues: map<Market, Queues>, orders: map<string, Order>, but: Option<string>, id: string, o: Order)
    requires Mirrors(queues, orders, but) && id in orders && !(o.Active() && o.remaining > 0)
    requires o.symbol == orders[id].symbol && o.side == orders[id].side && Market(o.symbol, o.side) in queues
    ensures var m := Market(o.symbol, o.side); Mirrors(queues[m := Dropped(queues[m], id)], orders[id := o], but)
  {
    var mine := Market(o.symbol, o.side);
    var queues', orders' := queues[mine := Dropped(queues[mine], id)], orders[id := o];
    forall m, p | m in queues' && p in queues'[m] ensures QueueOk(orders', m, p, queues'[m][p], but) {
      if m == mine {
        StripQueueOk(orders, m, p, queues[m][p], but, id, o);
      } else {
        OtherMarketLacks(queues, orders, but, id, m, p);
        QueueIgnores(orders, m, p, queues[m][p], but, id, o);
      }
    }
    forall x | x in orders' && but != Some(x) && orders'[x].Active() && orders'[x].remaining > 0
      ensures Found(queues', x, orders'[x])
    {
      DropFinds(queues, orders, mine, id, x);
    }
  }

  lemma OtherMarketLacks(queues: map<Market, Queues>, orders: map<string, Order>, but: Option<string>, id: string,
      m: Market, p: int)
    requires Mirrors(queues, orders, but) && id in orders && m in queues && p in queues[m]
    requires m != Market(orders[id].symbol, orders[id].side)
    ensures forall i :: 0 <= i < |queues[m][p]| ==> queues[m][p][i].id != id
  {
    forall i | 0 <= i < |queues[m][p]| ensures queues[m][p][i].id != id {
      assert QueueOk(orders, m, p, queues[m][p], but) && SlotOk(orders, m, p, queues[m][p][i], but);
    }
  }

  lemma DropFinds(queues: map<Market, Queues>, orders: map<string, Order>, mine: Market, id: string, x: string)
    requires mine in queues && x in orders && x != id && Found(queues, x, orders[x])
    ensures Found(queues[mine := Dropped(queues[mine], id)], x, orders[x])
  {
    var o := orders[x];
    var m := Market(o.symbol, o.side);
    StripMembers(queues[m][o.price], id);
    assert Queued(Strip(queues[m][o.price], id), x);
    assert Strip(queues[m][o.price], id) != [];
  }

  lemma {:induction false} LowerMembers(q: seq<Slot>, id: string, count: int)
    ensures |Lower(q, id, count)| == |q|
    ensures forall i :: 0 <= i < |q| ==> Lower(q, id, count)[i] == if q[i].id == id
      then Slot(id, q[i].quantity - count) else q[i]
  {
    if q != [] { LowerMembers(q[1..], id, count); }
  }

  /** Lowering an order's queued quantity as it is partly executed keeps the mirror. */
  lemma LowerMirrors(queues: map<Market, Queues>, orders: map<string, Order>, but: Option<string>, id: string,
      count: int)
    requires Mirrors(queues, orders, but) && id in orders && orders[id].Active() && 0 < count < orders[id].remaining
    requires Market(orders[id].symbol, orders[id].side) in queues
    ensures var m := Market(orders[id].symbol, orders[id].side);
      Mirrors(queues[m := Lowered(queues[m], id, count)], orders[id := Executed(orders[id], count)], but)
  {
    var o := Executed(orders[id], count);
    var mine := Market(o.symbol, o.side);
    var queues', orders' := queues[mine := Lowered(queues[mine], id, count)], orders[id := o];
    forall m, p | m in queues' && p in queues'[m] ensures QueueOk(orders', m, p, queues'[m][p], but) {
      if m == mine {
        LowerQueueOk(orders, m, p, queues[m][p], but, id, count);
      } else {
        OtherMarketLacks(queues, orders, but, id, m, p);
        QueueIgnores(orders, m, p, queues[m][p], but, id, o);
      }
    }
    forall x | x in orders' && but != Some(x) && orders'[x].Active() && orders'[x].remaining > 0
      ensures Found(queues', x, orders'[x])
    {
      LowerFinds(queues, mine, id, count, x, orders[x]);
    }
  }

  lemma LowerQueueOk(orders: map<string, Order>, m: Market, p: int, q: seq<Slot>, but: Option<string>, id: string,
      count: int)
    requires QueueOk(orders, m, p, q, but) && id in orders && orders[id].Active() && 0 < count < orders[id].remaining
    ensures QueueOk(orders[id := Executed(orders[id], count)], m, p, Lower(q, id, count), but)
  {
    LowerMembers(q, id, count);
    var r, orders' := Lower(q, id, count), orders[id := Executed(orders[id], count)];
    forall i | 0 <= i < |r| ensures SlotOk(orders', m, p, r[i], but) && r[i].id == q[i].id {
      assert SlotOk(orders, m, p, q[i], but);
    }
  }

  lemma LowerFinds(queues: map<Market, Queues>, mine: Market, id: string, count: int, x: string, o: Order)
    requires mine in queues && Found(queues, x, o)
    ensures Found(queues[mine := Lowered(queues[mine], id, count)], x, o)
  {
    var m := Market(o.symbol, o.side);
    var q := queues[m][o.price];
    var i :| 0 <= i < |q| && q[i].id == x;
    LowerMembers(q, id, count);
    assert Lower(q, id, count)[i].id == x;
  }

  /** The order kept aside joins the back of its queue: it is the latest. */
  lemma JoinMirrors(queues: map<Market, Queues>, orders: map<string, Order>, id: string)
    requires Mirrors(queues, orders, Some(id)) && id in orders && orders[id].Active() && orders[id].remaining > 0
    requires Market(orders[id].symbol, orders[id].side) in queues
    requires forall x :: x in orders && x != id ==> orders[x].seqno < orders[id].seqno
    ensures var o := orders[id]; var m := Market(o.symbol, o.side);
      Mirrors(queues[m := Enqueued(queues[m], o.price, Slot(id, o.remaining))], orders, None)
  {
    var o := orders[id];
    var mine := Market(o.symbol, o.side);
    var queues' := queues[mine := Enqueued(queues[mine], o.price, Slot(id, o.remaining))];
    forall m, p | m in queues' && p in queues'[m] ensures QueueOk(orders, m, p, queues'[m][p], None) {
      if m == mine && p == o.price {
        var q := QueueAt(queues[m], p);
        assert QueueOk(orders, m, p, q, Some(id));
        JoinQueueOk(orders, m, p, q, id);
      } else {
        QueueButIrrelevant(orders, m, p, queues[m][p], Some(id), None);
      }
    }
    forall x | x in orders && orders[x].Active() && orders[x].remaining > 0 ensures Found(queues', x, orders[x]) {
      JoinFinds(queues, orders, id, x);
    }
  }

  lemma JoinQueueOk(orders: map<string, Order>, m: Market, p: int, q: seq<Slot>, id: string)
    requires QueueOk(orders, m, p, q, Some(id)) && id in orders && Resting(orders[id], m.symbol, m.side)
      && orders[id].price == p
    requires forall x :: x in orders && x != id ==> orders[x].seqno < orders[id].seqno
    ensures QueueOk(orders, m, p, q + [Slot(id, orders[id].remaining)], None)
  {
    var r := q + [Slot(id, orders[id].remaining)];
    forall i | 0 <= i < |r| ensures SlotOk(orders, m, p, r[i], None) {
      if i < |q| { assert SlotOk(orders, m, p, q[i], Some(id)); }
    }
    forall i | 0 <= i < |q| ensures q[i].id != id { assert SlotOk(orders, m, p, q[i], Some(id)); }
  }

  lemma JoinFinds(queues: map<Market, Queues>, orders: map<string, Order>, id: string, x: string)
    requires Mirrors(queues, orders, Some(id)) && id in orders && x in orders && orders[x].Active()
      && orders[x].remaining > 0
    requires Market(orders[id].symbol, orders[id].side) in queues
    ensures var o := orders[id]; var m := Market(o.symbol, o.side);
      Found(queues[m := Enqueued(queues[m], o.price, Slot(id, o.remaining))], x, orders[x])
  {
    var o := orders[id];
    var mine := Market(o.symbol, o.side);
    var q: seq<Slot> := QueueAt(queues[mine], o.price);
    var after: map<Market, Queues> := queues[mine := Enqueued(queues[mine], o.price, Slot(id, o.remaining))];
    if x == id {
      assert after[mine][o.price][|q|].id == id;
    } else {
      assert Found(queues, x, orders[x]);
      var m := Market(orders[x].symbol, orders[x].side);
      var i :| 0 <= i < |queues[m][orders[x].price]| && queues[m][orders[x].price][i].id == x;
      assert after[m][orders[x].price][i].id == x;
    }
  }

  // ---------------------------------------------------------------- the engine

  /** Two changes to one line add up. */
  lemma AddTwice(accounts: map<Holding, Balance>, h: Holding, a: int, x: int, b: int, y: int)
    ensures Add(Add(accounts, h, a, x), h, b, y) == Add(accounts, h, a + b, x + y)
  {
  }

  lemma OrderIsOk(s: State, id: string)
    requires Wf(s) && id in s.orders
    ensures OrderOk(s.settings, s.lastSeq, id, s.orders[id])
  {
  }

  lemma FrontIsMaker(queues: map<Market, Queues>, orders: map<string, Order>, m: Market, p: int, but: Option<string>)
    requires Mirrors(queues, orders, but) && m in queues && p in queues[m] && queues[m][p] != []
    ensures SlotOk(orders, m, p, queues[m][p][0], but)
  {
    assert QueueOk(orders, m, p, queues[m][p], but);
  }

  /** A market queues no order that is kept aside. */
  lemma AsideIsUnlisted(queues: map<Market, Queues>, orders: map<string, Order>, id: string)
    requires Mirrors(queues, orders, Some(id)) && id in orders && Market(orders[id].symbol, orders[id].side) in queues
    ensures !Listed(queues[Market(orders[id].symbol, orders[id].side)], id)
  {
    var m := Market(orders[id].symbol, orders[id].side);
    forall p, i | p in queues[m] && 0 <= i < |queues[m][p]| ensures queues[m][p][i].id != id {
      assert QueueOk(orders, m, p, queues[m][p], Some(id)) && SlotOk(orders, m, p, queues[m][p][i], Some(id));
    }
  }

  /** A spent order ends the loop. */
  lemma SpentStops(s: State, id: string, index: nat)
    requires id in s.orders
    ensures s.orders[id].remaining <= 0 ==> Match(s, id, index) == s
  {
  }

  lemma IdsAreOrders(s: State, i: nat)
    requires Wf(s) && i < |s.ids|
    ensures s.ids[i] in s.orders
  {
  }

  lemma GenesisIsWf(rules: Settings)
    requires SettingsOk(rules)
    ensures Wf(Genesis(rules))
  {
  }

  lemma EmptyMirrors(queues: map<Market, Queues>)
    requires forall m :: m in queues ==> queues[m] == map[]
    ensures Mirrors(queues, map[], None)
  {
  }

  class MatchingEngine {
    const settings: Settings
    const index: OrderBook
    var accounts: map<Holding, Balance>
    var orders: map<string, Order>
    var ids: seq<string>
    var trades: seq<Trade>
    var results: map<int, Outcome>
    var daily: map<(string, string, int), int>
    var executionSeq: int
    var lastSeq: int
    var lastTimestamp: int

    /** The plain state this engine stands for. */
    function Abs(): State
      reads this
    {
      State(accounts, orders, ids, trades, results, daily, settings, executionSeq, lastSeq, lastTimestamp)
    }

    /** The index holds the active orders, except `but`. */
    ghost predicate Indexed(but: Option<string>)
      reads this, index
    {
      && index.Valid() && (forall m :: m in index.queues <==> m.symbol in settings.symbols)
      && Mirrors(index.queues, orders, but)
    }

    ghost predicate Valid()
      reads this, index
    {
      Wf(Abs()) && Indexed(None)
    }

    /** Genesis. */
    constructor (rules: Settings)
      requires SettingsOk(rules)
      ensures Valid() && fresh(index) && Abs() == Genesis(rules)
    {
      settings := rules;
      index := new OrderBook(rules.symbols);
      accounts := map h | h in GenesisLines(rules) :: Balance(OpeningOf(rules, h), 0);
      orders, ids, trades, results, daily, executionSeq, lastSeq, lastTimestamp := map[], [], [], map[], map[], 0, 1, 0;
      new;
      hide Mirrors, Wf, OrderBook.Valid;
      GenesisIsWf(rules);
      EmptyMirrors(index.queues);
    }

    /** `release`: unlink an order, return what it still reserves and close it. */
    method ReleaseOrder(id: string, reason: Reason, ghost but: Option<string>)
      requires Wf(Abs()) && Indexed(but) && id in orders && orders[id].Active()
      modifies this`accounts, this`orders, index
      ensures Abs() == Release(old(Abs()), id, reason) && Wf(Abs()) && Indexed(but)
    {
      hide Mirrors, Wf, Dropped, OrderBook.Valid;
      ReleaseKeepsWf(Abs(), id, reason);
      OrderIsOk(Abs(), id);
      var order := orders[id];
      var closed := order.(status := Canceled, reason := reason);
      DropMirrors(index.queues, orders, but, id, closed);
      index.Remove(order);
      accounts := Add(accounts, order.Line(), order.Amount(), -order.Amount());
      orders := orders[id := closed];
    }

    /** The settlement lines of the matching loop, in the source's order. */
    method Transfer(bid: Order, ask: Order, count: int, price: int)
      modifies this`accounts
      ensures accounts == Settle(old(accounts), bid, ask, count, price)
    {
      AddTwice(accounts, Cash(bid.owner), 0, -bid.price * count, (bid.price - price) * count, 0);
      accounts := Add(accounts, Cash(bid.owner), 0, -bid.price * count);
      accounts := Add(accounts, Cash(bid.owner), (bid.price - price) * count, 0);
      accounts := Add(accounts, Cash(ask.owner), price * count, 0);
      accounts := Add(accounts, Shares(ask.owner, bid.symbol), 0, -count);
      accounts := Add(accounts, Shares(bid.owner, bid.symbol), count, 0);
    }

    /** An execution takes from the index what it takes from the maker. */
    method ConsumeMaker(id: string, makerId: string, count: int, ghost p: int)
      requires Wf(Abs()) && Indexed(Some(id)) && Tradable(Abs(), id, makerId) && 0 < count <= orders[makerId].remaining
      requires var m := Market(orders[makerId].symbol, orders[makerId].side);
        m in index.queues && p in index.queues[m] && index.queues[m][p] != [] && index.queues[m][p][0].id == makerId
      modifies index
      ensures index.Valid() && index.queues.Keys == old(index.queues.Keys)
      ensures Mirrors(index.queues, orders[makerId := Executed(orders[makerId], count)], Some(id))
    {
      hide Mirrors, Wf, QueueOk, Dropped, Lowered, OrderBook.Valid;
      var maker := orders[makerId];
      ghost var m := Market(maker.symbol, maker.side);
      FrontIsMaker(index.queues, orders, m, p, Some(id));
      OrderIsOk(Abs(), makerId);
      if count == maker.remaining {
        DropMirrors(index.queues, orders, Some(id), makerId, Executed(maker, count));
      } else {
        LowerMirrors(index.queues, orders, Some(id), makerId, count);
      }
      var ok := index.Consume(maker, count, p, 0);
    }

    /** One execution of the incoming order against the maker the index found. */
    method Execute(id: string, makerId: string, tradeIndex: nat, ghost p: int)
      requires Wf(Abs()) && Indexed(Some(id)) && Tradable(Abs(), id, makerId)
      requires var m := Market(orders[makerId].symbol, orders[makerId].side);
        m in index.queues && p in index.queues[m] && index.queues[m][p] != [] && index.queues[m][p][0].id == makerId
      modifies this`accounts, this`orders, this`trades, this`executionSeq, index
      ensures Abs() == Fill(old(Abs()), id, makerId, tradeIndex) && Indexed(Some(id))
    {
      hide Mirrors, Wf, OrderBook.Valid, Settle;
      var order, maker := orders[id], orders[makerId];
      var count := Min(order.remaining, maker.remaining);
      var price := maker.price;
      var bid, ask := if order.side.Buy? then order else maker, if order.side.Buy? then maker else order;
      OrderIsOk(Abs(), id);
      OrderIsOk(Abs(), makerId);
      ConsumeMaker(id, makerId, count, p);
      Transfer(bid, ask, count, price);
      executionSeq := executionSeq + 1;
      trades := trades + [Trade(order.seqno, tradeIndex, executionSeq, order.symbol, price, count, order.timestamp,
                                bid.orderId, ask.orderId, bid.owner, ask.owner)];
      AsideChanges(index.queues, orders[makerId := Executed(maker, count)], id, Executed(order, count));
      assert orders[makerId := Executed(maker, count)][id := Executed(order, count)]
          == orders[id := Executed(order, count)][makerId := Executed(maker, count)];
      orders := orders[id := Executed(order, count)];
      orders := orders[makerId := Executed(maker, count)];
    }

    /** `index.best` finds what scanning the orders finds. */
    method BestMaker(id: string) returns (r: Option<string>, ghost p: int)
      requires Wf(Abs()) && Indexed(Some(id)) && id in orders
      modifies index
      ensures Indexed(Some(id)) && r == Best(Abs(), orders[id].symbol, orders[id].side.Opposite())
      ensures r.Some? ==>
        var m := Market(orders[r.value].symbol, orders[r.value].side);
        m in index.queues && p in index.queues[m] && index.queues[m][p] != [] && index.queues[m][p][0].id == r.value
    {
      var symbol, side := orders[id].symbol, orders[id].side;
      ghost var m := Market(symbol, side.Opposite());
      assert OrderOk(settings, lastSeq, id, orders[id]);
      ScanFindsBest(Abs(), symbol, side.Opposite());
      r := index.Best(symbol, side);
      p := 0;
      if index.queues[m] == map[] {
        EmptySideHasNone(index.queues, orders, Some(id), m);
      } else {
        p :| BestPrice(index.queues[m], m.side, p) && index.queues[m][p] != [] && r == Some(index.queues[m][p][0].id);
        FrontIsBest(index.queues, orders, Some(id), m, p);
      }
    }

    ghost predicate Latest(id: string)
      reads this
    {
      id in orders && forall x :: x in orders && x != id ==> orders[x].seqno < orders[id].seqno
    }

    /** One pass of the matching loop. */
    method TradeOnce(id: string, tradeIndex: nat) returns (more: bool)
      requires Wf(Abs()) && Indexed(Some(id)) && Working(Abs(), id) && orders[id].remaining != 0
      modifies this`accounts, this`orders, this`trades, this`executionSeq, index
      ensures Indexed(Some(id)) && Turn(Abs(), more) == MatchTurn(old(Abs()), id, tradeIndex)
    {
      hide Mirrors, Wf, Fill, Release, Best, OrderBook.Valid;
      OrderIsOk(Abs(), id);
      var makerId, p := BestMaker(id);
      if makerId.None? { return false; }
      PickedMakerTrades(Abs(), id);
      if Beyond(orders[id], orders[makerId.value]) { return false; }
      if orders[makerId.value].owner == orders[id].owner {
        ReleaseOrder(id, SelfTradePrevention, Some(id));
        return false;
      }
      Execute(id, makerId.value, tradeIndex + 1, p);
      more := true;
    }

    /** A remainder joins the book. */
    method JoinBook(id: string)
      requires Wf(Abs()) && Indexed(Some(id)) && Latest(id)
      modifies index
      ensures Valid()
    {
      hide Mirrors, Wf, Enqueued, OrderBook.Valid;
      OrderIsOk(Abs(), id);
      if orders[id].Active() {
        JoinMirrors(index.queues, orders, id);
        AsideIsUnlisted(index.queues, orders, id);
        var ok := index.Add(orders[id]);
      } else {
        AsideRejoins(index.queues, orders, id);
      }
    }

    /** The matching loop, then the order's remainder joins the book. */
    method MatchIncoming(id: string)
      requires Wf(Abs()) && Indexed(Some(id)) && Working(Abs(), id) && Latest(id)
      modifies this`accounts, this`orders, this`trades, this`executionSeq, index
      ensures Abs() == Match(old(Abs()), id, 0) && Valid()
    {
      hide Mirrors, Wf, MatchTurn, OrderBook.Valid;
      var tradeIndex := 0;
      MatchKeepsWf(Abs(), id, 0);
      MatchKeepsFrame(Abs(), id, 0);
      while orders[id].remaining != 0
        invariant Wf(Abs()) && Indexed(Some(id)) && Working(Abs(), id)
        invariant Match(Abs(), id, tradeIndex) == Match(old(Abs()), id, 0)
        decreases orders[id].remaining
      {
        OrderIsOk(Abs(), id);
        TurnKeepsWf(Abs(), id, tradeIndex);
        var more := TradeOnce(id, tradeIndex);
        if !more { break; }
        tradeIndex := tradeIndex + 1;
      }
      SpentStops(Abs(), id, tradeIndex);
      JoinBook(id);
    }

    // -------------------------------------------------------------- commands

    /** DAY expiry: every active order of another day is released. */
    method ExpireAll(day: int)
      requires Valid()
      modifies this`accounts, this`orders, index
      ensures Abs() == Expire(old(Abs()), |ids|, day) && Valid()
    {
      hide Mirrors, Wf, Release, OrderBook.Valid;
      var i := 0;
      while i < |ids|
        invariant 0 <= i <= |ids| && Valid() && Abs() == Expire(old(Abs()), i, day)
      {
        var id := ids[i];
        IdsAreOrders(Abs(), i);
        if orders[id].Active() && orders[id].day != day {
          ReleaseOrder(id, DayExpired, None);
        }
        i := i + 1;
      }
    }

    method AnswerWith(seqno: int, outcome: Outcome)
      modifies this`results
      ensures results == old(results)[seqno := outcome]
    {
      results := results[seqno := outcome];
    }

    /** Cancellation, on the opened state. */
    method CancelOrder(c: Command)
      requires Valid() && c.body.Cancel?
      modifies this`accounts, this`orders, this`results, index
      ensures Abs() == DoCancel(old(Abs()), c) && Valid()
    {
      hide Mirrors, Release, OrderBook.Valid, OrderOk;
      var id := c.body.orderId;
      if id !in orders || orders[id].owner != c.owner {
        AnswerWith(c.seqno, Rejected(id, OwnedOrderNotFound));
      } else if orders[id].Active() {
        ReleaseOrder(id, UserCancel, None);
        AnswerWith(c.seqno, Accepted(id, Canceled));
      } else if orders[id].status != Canceled {
        AnswerWith(c.seqno, Rejected(id, OrderAlreadyFilled));
      } else {
        AnswerWith(c.seqno, Accepted(id, Canceled));
      }
    }

    /** Reserve for an order and enter it, kept aside from the book until it has been matched. */
    method EnterOrder(c: Command)
      requires Valid() && c.body.New? && Refusal(Abs(), c).None?
      modifies this`accounts, this`orders, this`ids, this`daily
      ensures Abs() == Enter(old(Abs()), c) && Indexed(Some(c.body.orderId))
    {
      hide Mirrors, Wf, OrderBook.Valid;
      var b := c.body;
      var order := BodyOrder(b, c.owner, c.seqno, c.timestamp);
      AsideEnters(index.queues, orders, b.orderId, order);
      accounts := Add(accounts, order.Line(), -order.Amount(), order.Amount());
      daily := daily[(c.owner, b.symbol, DayOf(c.timestamp)) := Usage(Abs(), c.owner, b.symbol, DayOf(c.timestamp))
          + b.quantity];
      orders := orders[b.orderId := order];
      ids := ids + [b.orderId];
    }

    /** A new order, on the opened state: refused, or reserved, matched and booked. */
    method SubmitOrder(c: Command)
      requires Valid() && c.body.New? && c.owner in settings.owners && c.body.price > 0 && c.body.quantity > 0
      requires lastSeq == c.seqno && forall id :: id in orders ==> orders[id].seqno < c.seqno
      modifies this`accounts, this`orders, this`ids, this`daily, this`trades, this`results, this`executionSeq, index
      ensures Abs() == DoNew(old(Abs()), c) && Valid()
    {
      hide Mirrors, OrderOk, LinesOk, Match, Refusal, OrderBook.Valid;
      var refusal := Refusal(Abs(), c);
      if refusal.Some? {
        AnswerWith(c.seqno, Rejected(c.body.orderId, refusal.value));
        return;
      }
      EnterKeepsWf(Abs(), c);
      EnterOrder(c);
      MatchIncoming(c.body.orderId);
      AnswerWith(c.seqno, Accepted(c.body.orderId, orders[c.body.orderId].status));
    }

    /** `reduce_command`: exactly the plain rules, and an inadmissible command leaves everything alone. */
    method ReduceCommand(c: Command) returns (ok: bool)
      requires Valid()
      modifies this, index
      ensures Valid()
      ensures match Reduce(old(Abs()), c)
        case Some(t) => ok && Abs() == t
        case None => !ok && Abs() == old(Abs())
    {
      hide Mirrors, Wf, Expire, DoNew, DoCancel, OrderBook.Valid;
      if !Admissible(Abs(), c) { return false; }
      OpenedIsWf(Abs(), c);
      CursorKeepsWf(Abs(), c);
      lastSeq, lastTimestamp := c.seqno, c.timestamp;
      ExpireAll(DayOf(c.timestamp));
      if c.body.Cancel? {
        CancelOrder(c);
      } else {
        SubmitOrder(c);
      }
      ok := true;
    }
  }
}
