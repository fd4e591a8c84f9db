/** Public order books: the open quantity at every price, and the level updates that carry one book to the next. */
module Books {
  import opened Wrappers
  import opened Sorting
  import opened Exchange
  import opened OrderIndex
  import opened Engine

  type Levels = map<int, int>

  /** One map of price levels per side of every symbol. */
  type Books = map<Market, Levels>

  // ---------------------------------------------------------------- books from orders

  predicate At(o: Order, m: Market, p: int) {
    Resting(o, m.symbol, m.side) && o.price == p
  }

  /** The open quantity at one price among the listed orders. */
  function Depth(orders: map<string, Order>, ids: seq<string>, m: Market, p: int): int {
    if ids == [] then 0
    else
      Depth(orders, ids[1..], m, p)
      + if ids[0] in orders && At(orders[ids[0]], m, p) then orders[ids[0]].remaining else 0
  }

  function Prices(orders: map<string, Order>, ids: seq<string>, m: Market): set<int> {
    set i | 0 <= i < |ids| && ids[i] in orders && Resting(orders[ids[i]], m.symbol, m.side) :: orders[ids[i]].price
  }

  /** `book`: levels with open orders, and the sum of what is open there. */
  function LevelsOf(orders: map<string, Order>, ids: seq<string>, m: Market): Levels {
    map p | p in Prices(orders, ids, m) :: Depth(orders, ids, m, p)
  }

  function Markets(symbols: seq<string>): (ms: set<Market>)
    ensures forall m :: m in ms <==> m.symbol in symbols
  {
    var ms := set y, side | y in symbols && side in {Buy, Sell} :: Market(y, side);
    assert forall m: Market :: m == Market(m.symbol, m.side) && (m.side == Buy || m.side == Sell);
    ms
  }

  function BooksOf(orders: map<string, Order>, ids: seq<string>, symbols: seq<string>): Books {
    map m | m in Markets(symbols) :: LevelsOf(orders, ids, m)
  }

  lemma {:induction false} DepthIsPositive(orders: map<string, Order>, ids: seq<string>, m: Market, p: int)
    ensures Depth(orders, ids, m, p) >= 0
    ensures p in Prices(orders, ids, m) ==> Depth(orders, ids, m, p) > 0
  {
    if ids != [] {
      DepthIsPositive(orders, ids[1..], m, p);
      if p in Prices(orders, ids, m) && !(ids[0] in orders && At(orders[ids[0]], m, p)) {
        var i :| 0 <= i < |ids| && ids[i] in orders && Resting(orders[ids[i]], m.symbol, m.side)
          && orders[ids[i]].price == p;
        assert ids[1..][i - 1] == ids[i];
      }
    }
  }

  // ---------------------------------------------------------------- the index holds the same books

  lemma {:induction false} DepthWithout(orders: map<string, Order>, ids: seq<string>, k: nat, m: Market, p: int)
    requires k < |ids|
    ensures Depth(orders, ids, m, p) == Depth(orders, ids[..k] + ids[k + 1..], m, p)
      + if ids[k] in orders && At(orders[ids[k]], m, p) then orders[ids[k]].remaining else 0
  {
    var rest := ids[..k] + ids[k + 1..];
    if k == 0 {
      assert rest == ids[1..];
    } else {
      DepthWithout(orders, ids[1..], k - 1, m, p);
      assert ids[1..][..k - 1] + ids[1..][k..] == rest[1..] && rest[0] == ids[0];
    }
  }

  ghost predicate Lists(orders: map<string, Order>, ids: seq<string>, q: seq<Slot>, m: Market, p: int) {
    && Distinct(ids) && (forall i, j :: 0 <= i < j < |q| ==> q[i].id != q[j].id)
    && (forall i :: 0 <= i < |q| ==> q[i].id in ids && SlotOk(orders, m, p, q[i], None))
    && (forall id :: id in ids && id in orders && At(orders[id], m, p) ==> Queued(q, id))
  }

  lemma ListsWithout(orders: map<string, Order>, ids: seq<string>, q: seq<Slot>, m: Market, p: int, k: nat)
    requires Lists(orders, ids, q, m, p) && q != [] && k < |ids| && ids[k] == q[|q| - 1].id
    ensures Lists(orders, ids[..k] + ids[k + 1..], q[..|q| - 1], m, p)
  {
    hide SlotOk, At;
    var rest, front := ids[..k] + ids[k + 1..], q[..|q| - 1];
    forall i | 0 <= i < |front| ensures front[i].id in rest && SlotOk(orders, m, p, front[i], None) {
      var j :| 0 <= j < |ids| && ids[j] == q[i].id;
      assert rest[if j < k then j else j - 1] == ids[j];
    }
    forall i, j | 0 <= i < j < |rest| ensures rest[i] != rest[j] {
      assert rest[i] == ids[if i < k then i else i + 1] && rest[j] == ids[if j < k then j else j + 1];
    }
    forall id | id in rest && id in orders && At(orders[id], m, p) ensures Queued(front, id) {
      var j :| 0 <= j < |rest| && rest[j] == id;
      assert id == ids[if j < k then j else j + 1] && id != ids[k];
      var i :| 0 <= i < |q| && q[i].id == id;
      assert front[i].id == id;
    }
  }

  lemma {:induction false} DepthOfNone(orders: map<string, Order>, ids: seq<string>, m: Market, p: int)
    requires forall id :: id in ids && id in orders ==> !At(orders[id], m, p)
    ensures Depth(orders, ids, m, p) == 0
  {
    if ids != [] { DepthOfNone(orders, ids[1..], m, p); }
  }

  lemma {:induction false} QueueSumIsDepth(orders: map<string, Order>, ids: seq<string>, q: seq<Slot>, m: Market,
      p: int)
    requires Lists(orders, ids, q, m, p)
    ensures Sum(q) == Depth(orders, ids, m, p)
    decreases |q|
  {
    if q == [] {
      DepthOfNone(orders, ids, m, p);
    } else {
      var last := q[|q| - 1];
      var k :| 0 <= k < |ids| && ids[k] == last.id;
      assert SlotOk(orders, m, p, last, None);
      ListsWithout(orders, ids, q, m, p, k);
      QueueSumIsDepth(orders, ids[..k] + ids[k + 1..], q[..|q| - 1], m, p);
      DepthWithout(orders, ids, k, m, p);
    }
  }

  lemma QueueLists(queues: map<Market, Queues>, s: State, m: Market, p: int)
    requires Wf(s) && Mirrors(queues, s.orders, None) && m in queues
    ensures Lists(s.orders, s.ids, QueueAt(queues[m], p), m, p)
  {
    var q := QueueAt(queues[m], p);
    if p in queues[m] { assert QueueOk(s.orders, m, p, q, None); }
    forall i | 0 <= i < |q| ensures q[i].id in s.ids && SlotOk(s.orders, m, p, q[i], None) {
      assert SlotOk(s.orders, m, p, q[i], None);
    }
    forall i, j | 0 <= i < j < |q| ensures q[i].id != q[j].id {
      assert s.orders[q[i].id].seqno < s.orders[q[j].id].seqno;
    }
    forall id | id in s.ids && id in s.orders && At(s.orders[id], m, p) ensures Queued(q, id) {
      assert Found(queues, id, s.orders[id]) && Market(s.orders[id].symbol, s.orders[id].side) == m;
    }
  }

  function Totals(ix: SideIndex): Levels {
    map p | p in ix.levels :: ix.levels[p].quantity
  }

  function Sums(qs: Queues): Levels {
    map p | p in qs :: Sum(qs[p])
  }

  lemma QueuedPricesAreLevels(queues: map<Market, Queues>, s: State, m: Market, p: int)
    requires Wf(s) && Mirrors(queues, s.orders, None) && m in queues
      && forall p :: p in queues[m] ==> queues[m][p] != []
    ensures p in Prices(s.orders, s.ids, m) <==> p in queues[m]
    ensures Depth(s.orders, s.ids, m, p) == Sum(QueueAt(queues[m], p))
  {
    hide Wf, Mirrors, Depth, Sum;
    var q := QueueAt(queues[m], p);
    QueueLists(queues, s, m, p);
    QueueSumIsDepth(s.orders, s.ids, q, m, p);
    if p in queues[m] {
      assert SlotOk(s.orders, m, p, q[0], None);
      var i :| 0 <= i < |s.ids| && s.ids[i] == q[0].id;
      assert s.orders[s.ids[i]].price == p;
    }
    if p in Prices(s.orders, s.ids, m) {
      var i :| 0 <= i < |s.ids| && s.ids[i] in s.orders && Resting(s.orders[s.ids[i]], m.symbol, m.side)
        && s.orders[s.ids[i]].price == p;
      assert s.ids[i] in s.ids && At(s.orders[s.ids[i]], m, p) && Queued(q, s.ids[i]);
    }
  }

  /** The level totals the index keeps are the book scanned from the orders. */
  lemma IndexLevelsAreBook(queues: map<Market, Queues>, s: State, m: Market)
    requires Wf(s) && Mirrors(queues, s.orders, None) && m in queues
      && forall p :: p in queues[m] ==> queues[m][p] != []
    ensures LevelsOf(s.orders, s.ids, m) == Sums(queues[m])
  {
    hide Wf, Mirrors, Depth, Sum, Prices;
    var prices := Prices(s.orders, s.ids, m);
    forall p ensures p in prices <==> p in queues[m] { QueuedPricesAreLevels(queues, s, m, p); }
    forall p | p in queues[m] ensures Depth(s.orders, s.ids, m, p) == Sum(queues[m][p]) {
      QueuedPricesAreLevels(queues, s, m, p);
    }
  }

  lemma TotalsAreSums(ix: SideIndex, qs: Queues, side: Side)
    requires Represents(ix, qs, side)
    ensures Totals(ix) == Sums(qs) && forall p :: p in qs ==> qs[p] != []
  {
    hide Chain, Queued, Sum;
    forall p | p in qs ensures p in ix.levels && ix.levels[p].quantity == Sum(qs[p]) {
      assert ix.levels[p] == LevelOf(qs[p]);
    }
    assert forall p :: p in Totals(ix) <==> p in Sums(qs);
  }

  /** `levels`: the book served from the index is the book the open orders make. */
  method ServeLevels(engine: MatchingEngine, m: Market) returns (levels: Levels)
    requires engine.Valid() && m.symbol in engine.settings.symbols
    ensures levels == LevelsOf(engine.orders, engine.ids, m)
  {
    hide Mirrors, Wf, Represents, Totals;
    levels := Totals(engine.index.value[m]);
    TotalsAreSums(engine.index.value[m], engine.index.queues[m], m.side);
    IndexLevelsAreBook(engine.index.queues, engine.Abs(), m);
    assert levels == LevelsOf(engine.Abs().orders, engine.Abs().ids, m);
  }

  // ---------------------------------------------------------------- level updates

  function Size(levels: Levels, p: int): int {
    if p in levels then levels[p] else 0
  }

  ghost predicate Positive(levels: Levels) {
    forall p :: p in levels ==> levels[p] > 0
  }

  /** The prices whose open quantity changed, with the new absolute size; zero says the level is gone. */
  function Diff(before: Levels, after: Levels): Levels {
    map p | p in before.Keys + after.Keys && Size(before, p) != Size(after, p) :: Size(after, p)
  }

  /** What applying the updates leaves. */
  function Patched(levels: Levels, changes: Levels): Levels {
    map p | p in levels.Keys + changes.Keys && (p in changes ==> changes[p] != 0) ::
      if p in changes then changes[p] else levels[p]
  }

  /** Absolute sizes with zero deleting carry one book exactly to the next. */
  lemma DiffCarriesOver(before: Levels, after: Levels)
    requires Positive(before) && Positive(after)
    ensures Patched(before, Diff(before, after)) == after
  {
    var d := Diff(before, after);
    forall p ensures p in Patched(before, d) <==> p in after {
      if p in after && p !in before { assert after[p] > 0; }
    }
  }

  /** The symbols whose book changed, both sides of each. */
  function BookDiff(before: Books, after: Books): Books {
    map m | m in after && Touched(before, after, m.symbol) :: DiffAt(before, after, m)
  }

  function DiffAt(before: Books, after: Books, m: Market): Levels {
    Diff(if m in before then before[m] else map[], if m in after then after[m] else map[])
  }

  predicate Touched(before: Books, after: Books, symbol: string) {
    DiffAt(before, after, Market(symbol, Buy)) != map[] || DiffAt(before, after, Market(symbol, Sell)) != map[]
  }

  function PatchedBooks(books: Books, changes: Books): Books {
    map m | m in books :: if m in changes then Patched(books[m], changes[m]) else books[m]
  }

  ghost predicate AllPositive(books: Books) {
    forall m :: m in books ==> Positive(books[m])
  }

  lemma EmptyPatch(levels: Levels)
    ensures Patched(levels, map[]) == levels
  {
  }

  /** A batch's updates carry every book exactly to the next state's. */
  lemma BookDiffCarriesOver(before: Books, after: Books)
    requires before.Keys == after.Keys && AllPositive(before) && AllPositive(after)
    ensures PatchedBooks(before, BookDiff(before, after)) == after
  {
    hide Size, Patched, Positive, Diff;
    var d := BookDiff(before, after);
    forall m | m in after ensures (if m in d then Patched(before[m], d[m]) else before[m]) == after[m] {
      DiffCarriesOver(before[m], after[m]);
      if m !in d {
        assert m == Market(m.symbol, m.side) && (m.side == Buy || m.side == Sell);
        assert Diff(before[m], after[m]) == map[];
        EmptyPatch(before[m]);
      }
    }
  }

  lemma BooksArePositive(orders: map<string, Order>, ids: seq<string>, symbols: seq<string>)
    ensures AllPositive(BooksOf(orders, ids, symbols))
  {
    var books := BooksOf(orders, ids, symbols);
    forall m, p | m in books && p in books[m] ensures books[m][p] > 0 { DepthIsPositive(orders, ids, m, p); }
  }

  /** The update loop over one side: set every nonzero size, drop every zero. */
  method PatchLevels(levels: Levels, changes: Levels) returns (r: Levels)
    ensures r == Patched(levels, changes)
  {
    r := levels;
    var left := changes.Keys;
    while left != {}
      invariant left <= changes.Keys
      invariant forall p :: p in r <==> if p in changes && p !in left then changes[p] != 0 else p in levels
      invariant forall p :: p in r ==> r[p] == if p in changes && p !in left then changes[p] else levels[p]
    {
      assert (forall p :: p !in left) ==> left == {};
      var p: int :| p in left;
      left := left - {p};
      if changes[p] != 0 { r := r[p := changes[p]]; } else { r := r - {p}; }
    }
    var patched := Patched(levels, changes);
    assert forall p :: p in r <==> p in patched;
    assert forall p :: p in r ==> r[p] == patched[p];
  }

  /** The update loop over all symbols and sides. */
  method PatchBooks(books: Books, changes: Books) returns (r: Books)
    requires changes.Keys <= books.Keys
    ensures r == PatchedBooks(books, changes)
  {
    hide Patched;
    r := books;
    var left := changes.Keys;
    while left != {}
      invariant left <= changes.Keys && r.Keys == books.Keys
      invariant forall m :: m in r ==> r[m] == if m in changes && m !in left then Patched(books[m], changes[m])
        else books[m]
    {
      assert (forall m :: m !in left) ==> left == {};
      var m: Market :| m in left;
      left := left - {m};
      var patched := PatchLevels(r[m], changes[m]);
      r := r[m := patched];
    }
  }
}
