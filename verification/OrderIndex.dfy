/** The mutable order index: price heaps with stale entries, level totals, doubly linked FIFOs and the node map.
    Its meaning is one first-come queue per price level. */
module OrderIndex {
  import opened Wrappers
  import opened Exchange
  import opened PriceHeap

  datatype Level = Level(head: Option<string>, tail: Option<string>, quantity: int)

  datatype Node = Node(previous: Option<string>, next: Option<string>, price: int, quantity: int)

  datatype SideIndex = SideIndex(levels: map<int, Level>, heap: seq<int>, nodes: map<string, Node>)

  /** One side of one symbol. */
  datatype Market = Market(symbol: string, side: Side)

  // ---------------------------------------------------------------- the meaning

  /** A queued order and its open quantity. */
  datatype Slot = Slot(id: string, quantity: int)

  type Queues = map<int, seq<Slot>>

  function Sign(side: Side): int { if side.Buy? then -1 else 1 }

  function Sum(q: seq<Slot>): int {
    if q == [] then 0 else Sum(q[..|q| - 1]) + q[|q| - 1].quantity
  }

  ghost predicate Queued(q: seq<Slot>, id: string) {
    exists i :: 0 <= i < |q| && q[i].id == id
  }

  ghost predicate Listed(qs: Queues, id: string) {
    exists p :: p in qs && Queued(qs[p], id)
  }

  function IdAt(q: seq<Slot>, i: int): Option<string> {
    if 0 <= i < |q| then Some(q[i].id) else None
  }

  ghost predicate Linked(nodes: map<string, Node>, q: seq<Slot>, price: int, i: int)
    requires 0 <= i < |q|
  {
    q[i].quantity > 0 && q[i].id in nodes
      && nodes[q[i].id] == Node(IdAt(q, i - 1), IdAt(q, i + 1), price, q[i].quantity)
  }

  /** The nodes of one queue link it up in order, both ways, and carry its price and quantities. */
  ghost predicate Chain(nodes: map<string, Node>, q: seq<Slot>, price: int) {
    && (forall i :: 0 <= i < |q| ==> Linked(nodes, q, price, i))
    && (forall i, j :: 0 <= i < j < |q| ==> q[i].id != q[j].id)
  }

  function LevelOf(q: seq<Slot>): Level {
    Level(IdAt(q, 0), IdAt(q, |q| - 1), Sum(q))
  }

  /** The index `ix` stands for the queues `qs`. */
  ghost predicate Represents(ix: SideIndex, qs: Queues, side: Side) {
    && ix.levels.Keys == qs.Keys
    && (forall p :: p in qs ==> qs[p] != [] && ix.levels[p] == LevelOf(qs[p]) && Chain(ix.nodes, qs[p], p))
    && (forall id :: id in ix.nodes ==> ix.nodes[id].price in qs && Queued(qs[ix.nodes[id].price], id))
    && IsHeap(ix.heap) && (forall p :: p in qs ==> Sign(side) * p in ix.heap)
  }

  function QueueAt(qs: Queues, price: int): seq<Slot> {
    if price in qs then qs[price] else []
  }

  /** Joining the end of the queue at a price, opening the level if need be. */
  function Enqueued(qs: Queues, price: int, slot: Slot): Queues {
    qs[price := QueueAt(qs, price) + [slot]]
  }

  function Strip(q: seq<Slot>, id: string): seq<Slot> {
    if q == [] then [] else (if q[0].id == id then [] else [q[0]]) + Strip(q[1..], id)
  }

  /** Leaving the book; a level left empty disappears. */
  function Dropped(qs: Queues, id: string): Queues {
    map p | p in qs && Strip(qs[p], id) != [] :: Strip(qs[p], id)
  }

  function Lower(q: seq<Slot>, id: string, quantity: int): seq<Slot> {
    if q == [] then []
    else [if q[0].id == id then Slot(id, q[0].quantity - quantity) else q[0]] + Lower(q[1..], id, quantity)
  }

  /** Losing part of the open quantity in place. */
  function Lowered(qs: Queues, id: string, quantity: int): Queues {
    map p | p in qs :: Lower(qs[p], id, quantity)
  }

  /** A price no queued price beats: the highest bid, the lowest ask. */
  ghost predicate BestPrice(qs: Queues, side: Side, p: int) {
    p in qs && forall r :: r in qs ==> Sign(side) * p <= Sign(side) * r
  }

  // ---------------------------------------------------------------- queue facts

  lemma {:induction false} StripAbsent(q: seq<Slot>, id: string)
    requires !Queued(q, id)
    ensures Strip(q, id) == q
  {
    if q != [] {
      assert q[0].id != id;
      forall i | 0 <= i < |q[1..]| ensures q[1..][i].id != id { assert q[i + 1].id != id; }
      StripAbsent(q[1..], id);
    }
  }

  lemma {:induction false} StripAt(q: seq<Slot>, k: nat)
    requires k < |q| && forall i, j :: 0 <= i < j < |q| ==> q[i].id != q[j].id
    ensures Strip(q, q[k].id) == q[..k] + q[k + 1..]
  {
    if k == 0 {
      StripAbsent(q[1..], q[0].id);
    } else {
      var t := q[1..];
      assert forall i :: 0 <= i < |t| ==> t[i] == q[i + 1];
      StripAt(t, k - 1);
      assert q[0].id != q[k].id && t[k - 1] == q[k];
      assert q[..k] + q[k + 1..] == [q[0]] + (t[..k - 1] + t[k..]);
    }
  }

  lemma {:induction false} LowerAbsent(q: seq<Slot>, id: string, quantity: int)
    requires !Queued(q, id)
    ensures Lower(q, id, quantity) == q
  {
    if q != [] {
      assert q[0].id != id;
      forall i | 0 <= i < |q[1..]| ensures q[1..][i].id != id { assert q[i + 1].id != id; }
      LowerAbsent(q[1..], id, quantity);
    }
  }

  lemma {:induction false} LowerAt(q: seq<Slot>, k: nat, quantity: int)
    requires k < |q| && forall i, j :: 0 <= i < j < |q| ==> q[i].id != q[j].id
    ensures Lower(q, q[k].id, quantity) == q[k := Slot(q[k].id, q[k].quantity - quantity)]
  {
    if k == 0 {
      LowerAbsent(q[1..], q[0].id, quantity);
    } else {
      LowerAt(q[1..], k - 1, quantity);
    }
  }

  lemma {:induction false} SumSplits(a: seq<Slot>, b: seq<Slot>)
    ensures Sum(a + b) == Sum(a) + Sum(b)
  {
    if b == [] {
      assert a + b == a;
    } else {
      SumSplits(a, b[..|b| - 1]);
      assert (a + b)[..|a + b| - 1] == a + b[..|b| - 1];
    }
  }

  lemma SumWithout(q: seq<Slot>, k: nat)
    requires k < |q|
    ensures Sum(q[..k] + q[k + 1..]) == Sum(q) - q[k].quantity
  {
    hide Sum;
    var a, b := q[..k], q[k + 1..];
    SumSplits(a, b);
    SumSplits(a + [q[k]], b);
    SumPush(a, q[k]);
    assert q == a + [q[k]] + b;
  }

  lemma SumPush(a: seq<Slot>, x: Slot)
    ensures Sum(a + [x]) == Sum(a) + x.quantity
  {
    assert (a + [x])[..|a|] == a;
  }

  lemma SumLowered(q: seq<Slot>, k: nat, quantity: int)
    requires k < |q|
    ensures Sum(q[k := Slot(q[k].id, q[k].quantity - quantity)]) == Sum(q) - quantity
  {
    var r := q[k := Slot(q[k].id, q[k].quantity - quantity)];
    SumWithout(q, k);
    SumWithout(r, k);
    assert r[..k] + r[k + 1..] == q[..k] + q[k + 1..];
  }

  lemma LevelAppend(q: seq<Slot>, slot: Slot)
    ensures LevelOf(q + [slot])
      == Level(if q == [] then Some(slot.id) else IdAt(q, 0), Some(slot.id), Sum(q) + slot.quantity)
  {
    assert (q + [slot])[..|q|] == q;
  }

  // ---------------------------------------------------------------- chain facts

  /** Nodes outside a queue may change freely. */
  lemma ChainFrame(nodes: map<string, Node>, nodes': map<string, Node>, q: seq<Slot>, price: int)
    requires Chain(nodes, q, price)
    requires forall id :: id in nodes && nodes[id].price == price ==> id in nodes' && nodes'[id] == nodes[id]
    ensures Chain(nodes', q, price)
  {
    forall i | 0 <= i < |q| ensures Linked(nodes', q, price, i) { assert Linked(nodes, q, price, i); }
  }

  function Appended(nodes: map<string, Node>, q: seq<Slot>, price: int, slot: Slot): map<string, Node> {
    var added := nodes[slot.id := Node(IdAt(q, |q| - 1), None, price, slot.quantity)];
    if q == [] then added
    else
      var last := q[|q| - 1].id;
      if last in added then added[last := added[last].(next := Some(slot.id))] else added
  }

  lemma ChainAppend(nodes: map<string, Node>, q: seq<Slot>, price: int, slot: Slot)
    requires Chain(nodes, q, price) && slot.id !in nodes && slot.quantity > 0
    ensures Chain(Appended(nodes, q, price, slot), q + [slot], price)
  {
    var q' := q + [slot];
    var nodes' := Appended(nodes, q, price, slot);
    forall i | 0 <= i < |q| ensures q[i].id in nodes && q[i].id != slot.id { assert Linked(nodes, q, price, i); }
    forall i | 0 <= i < |q'| ensures Linked(nodes', q', price, i) {
      if i < |q| { assert Linked(nodes, q, price, i); }
    }
  }

  function Relinked(nodes: map<string, Node>, previous: Option<string>, following: Option<string>): map<string, Node> {
    var left := if previous.Some? && previous.value in nodes
                then nodes[previous.value := nodes[previous.value].(next := following)] else nodes;
    if following.Some? && following.value in left
      then left[following.value := left[following.value].(previous := previous)] else left
  }

  lemma RelinkedAt(nodes: map<string, Node>, q: seq<Slot>, price: int, k: nat, j: nat)
    requires Chain(nodes, q, price) && k < |q| && j < |q| && j != k
    ensures var nodes' := Relinked(nodes - {q[k].id}, IdAt(q, k - 1), IdAt(q, k + 1));
      && q[j].id in nodes' && q[j].quantity > 0
      && nodes'[q[j].id]
         == Node(IdAt(q, if j == k + 1 then k - 1 else j - 1), IdAt(q, if j == k - 1 then k + 1 else j + 1),
                                 price, q[j].quantity)
  {
    assert Linked(nodes, q, price, j);
    assert forall i :: 0 <= i < |q| && i != j ==> q[i].id != q[j].id;
    if k > 0 { assert Linked(nodes, q, price, k - 1); }
    if k + 1 < |q| { assert Linked(nodes, q, price, k + 1); }
  }

  lemma ChainRemove(nodes: map<string, Node>, q: seq<Slot>, price: int, k: nat)
    requires Chain(nodes, q, price) && k < |q|
    ensures Chain(Relinked(nodes - {q[k].id}, IdAt(q, k - 1), IdAt(q, k + 1)), q[..k] + q[k + 1..], price)
  {
    var q' := q[..k] + q[k + 1..];
    var nodes' := Relinked(nodes - {q[k].id}, IdAt(q, k - 1), IdAt(q, k + 1));
    forall i | 0 <= i < |q'| ensures Linked(nodes', q', price, i) {
      RelinkedAt(nodes, q, price, k, if i < k then i else i + 1);
    }
    forall i, j | 0 <= i < j < |q'| ensures q'[i].id != q'[j].id {
      assert q'[i] == q[if i < k then i else i + 1] && q'[j] == q[if j < k then j else j + 1];
    }
  }

  lemma ChainLower(nodes: map<string, Node>, q: seq<Slot>, price: int, k: nat, quantity: int)
    requires Chain(nodes, q, price) && k < |q| && 0 < quantity < q[k].quantity
    ensures Linked(nodes, q, price, k)
    ensures Chain(nodes[q[k].id := nodes[q[k].id].(quantity := q[k].quantity - quantity)],
                  q[k := Slot(q[k].id, q[k].quantity - quantity)], price)
  {
    var q' := q[k := Slot(q[k].id, q[k].quantity - quantity)];
    forall i ensures IdAt(q', i) == IdAt(q, i) { }
    assert Linked(nodes, q, price, k);
    var nodes' := nodes[q[k].id := nodes[q[k].id].(quantity := q[k].quantity - quantity)];
    forall i | 0 <= i < |q'| ensures Linked(nodes', q', price, i) {
      assert Linked(nodes, q, price, i) && (i != k ==> q[i].id != q[k].id);
    }
  }

  /** Stale prices never outnumber the live levels by more than those and eight. */
  predicate Compacted(ix: SideIndex) { |ix.heap| <= 2 * |ix.levels| + 8 }

  // ---------------------------------------------------------------- the class

  class OrderBook {
    var value: map<Market, SideIndex>
    ghost var queues: map<Market, Queues>

    ghost predicate Valid()
      reads this
    {
      value.Keys == queues.Keys && forall m :: m in value ==>
        Represents(value[m], queues[m], m.side) && Compacted(value[m])
    }

    /** `OrderBook.empty`. */
    constructor (symbols: seq<string>)
      ensures Valid()
      ensures forall m :: m in queues <==> m.symbol in symbols
      ensures forall m :: m in queues ==> queues[m] == map[]
    {
      var none := SideIndex(map[], [], map[]);
      value := map y, side | y in symbols && side in {Buy, Sell} :: Market(y, side) := none;
      queues := map y, side | y in symbols && side in {Buy, Sell} :: Market(y, side) := map[];
      new;
      forall m: Market ensures m in queues <==> m.symbol in symbols {
        assert m == Market(m.symbol, m.side) && (m.side == Buy || m.side == Sell);
      }
    }

    /** `add`: join the back of the level, opening it if new. An order already indexed is refused. */
    method Add(order: Order) returns (ok: bool)
      requires Valid() && Market(order.symbol, order.side) in queues && order.remaining > 0
      modifies this
      ensures Valid()
      ensures var m := Market(order.symbol, order.side);
              ok == !Listed(old(queues)[m], order.orderId)
              && queues == if ok
                 then old(queues)[m := Enqueued(old(queues)[m], order.price, Slot(order.orderId, order.remaining))]
                           else old(queues)
    {
      var m, id, price := Market(order.symbol, order.side), order.orderId, order.price;
      var side := value[m];
      NodesAreListed(side, queues[m], m.side, id);
      if id in side.nodes { return false; }
      var after := Link(side, price, Slot(id, order.remaining), queues[m], m.side);
      value := value[m := after];
      queues := queues[m := Enqueued(queues[m], price, Slot(id, order.remaining))];
      ok := true;
    }

    /** `remove`: unlink the order's node; nothing happens when it is not indexed. */
    method Remove(order: Order)
      requires Valid() && Market(order.symbol, order.side) in queues
      modifies this
      ensures Valid()
      ensures var m := Market(order.symbol, order.side);
        queues == old(queues)[m := Dropped(old(queues)[m], order.orderId)]
    {
      var m := Market(order.symbol, order.side);
      var after := Without(value[m], order.orderId, queues[m], m.side);
      value := value[m := after];
      queues := queues[m := Dropped(queues[m], order.orderId)];
    }

    /** `consume`: an execution takes part of an order's quantity, or all of it and the order with it.
        Any other quantity is refused. `price` and `k` say where the order is queued. */
    method Consume(order: Order, quantity: int, ghost price: int, ghost k: nat) returns (ok: bool)
      requires Valid() && Market(order.symbol, order.side) in queues
      requires var qs: Queues := queues[Market(order.symbol, order.side)];
               price in qs && k < |qs[price]| && qs[price][k].id == order.orderId
      modifies this
      ensures Valid()
      ensures var m := Market(order.symbol, order.side);
              var open := old(queues)[m][price][k].quantity;
              && ok == (0 < quantity <= open)
              && queues == if !ok then old(queues)
                           else if quantity == open then old(queues)[m := Dropped(old(queues)[m], order.orderId)]
                           else old(queues)[m := Lowered(old(queues)[m], order.orderId, quantity)]
    {
      hide Represents, Dropped, Lowered;
      var m, id := Market(order.symbol, order.side), order.orderId;
      var side := value[m];
      NodeOfSlot(side, queues[m], m.side, price, k);
      var node := side.nodes[id];
      if quantity == node.quantity {
        Remove(order);
        return true;
      }
      if !(0 < quantity < node.quantity) { return false; }
      ConsumeRepresents(side, queues[m], m.side, price, k, quantity);
      value := value[m := Shrunk(side, id, quantity)];
      queues := queues[m := Lowered(queues[m], id, quantity)];
      ok := true;
    }

    /** `best`: the front of the best level opposite a taker, popping stale prices off the heap. */
    method Best(symbol: string, taker: Side) returns (r: Option<string>)
      requires Valid() && Market(symbol, taker.Opposite()) in queues
      modifies this
      ensures Valid() && queues == old(queues)
      ensures var m := Market(symbol, taker.Opposite());
              if queues[m] == map[] then r == None
              else exists p :: BestPrice(queues[m], m.side, p) && queues[m][p] != [] && r == Some(queues[m][p][0].id)
    {
      hide Represents, IsHeap;
      var m := Market(symbol, taker.Opposite());
      var side := value[m];
      var heap := side.heap;
      LevelsOfQueues(side, queues[m], m.side);
      while heap != []
        invariant value == old(value) && queues == old(queues)
        invariant IsHeap(heap) && |heap| <= |side.heap| && forall p :: p in queues[m] ==> Sign(m.side) * p in heap
        decreases |heap|
      {
        var price := heap[0] * Sign(m.side);
        if price in side.levels {
          RootIsBest(heap, queues[m], m.side, price);
          HeapMayShrink(side, queues[m], m.side, heap);
          value := value[m := side.(heap := heap)];
          return side.levels[price].head;
        }
        ghost var full := heap;
        heap := Pop(heap);
        PopKeepsLive(full, heap, queues[m], m.side);
      }
      HeapMayShrink(side, queues[m], m.side, heap);
      value := value[m := side.(heap := heap)];
      r := None;
      assert queues[m] == map[] by {
        assert forall p :: p !in queues[m];
      }
    }
  }

  /** The linking part of `add`: open the level if new, then join its tail. */
  method Link(side: SideIndex, price: int, slot: Slot, ghost qs: Queues, s: Side) returns (after: SideIndex)
    requires Represents(side, qs, s) && slot.id !in side.nodes && slot.quantity > 0
    ensures Represents(after, Enqueued(qs, price, slot), s) && (Compacted(side) ==> Compacted(after))
  {
    var levels, heap, nodes := side.levels, side.heap, side.nodes;
    ghost var q := QueueAt(qs, price);
    if price !in levels {
      levels := levels[price := Level(None, None, 0)];
      heap := Push(heap, Sign(s) * price);
      assert Sign(s) * price in multiset(heap);
      OneMoreValue(heap, side.heap, Sign(s) * price);
    }
    var level := levels[price];
    assert level == LevelOf(q);
    var previous := level.tail;
    nodes := nodes[slot.id := Node(previous, None, price, slot.quantity)];
    if previous.None? {
      level := level.(head := Some(slot.id));
    } else {
      assert Linked(side.nodes, q, price, |q| - 1);
      nodes := nodes[previous.value := nodes[previous.value].(next := Some(slot.id))];
    }
    assert nodes == Appended(side.nodes, q, price, slot);
    level := level.(tail := Some(slot.id), quantity := level.quantity + slot.quantity);
    LevelAppend(q, slot);
    levels := levels[price := level];
    after := SideIndex(levels, heap, nodes);
    AddRepresents(side, qs, s, price, slot, after);
  }

  /** The partial branch of `consume`. */
  function Shrunk(side: SideIndex, id: string, quantity: int): SideIndex
    requires id in side.nodes && side.nodes[id].price in side.levels
  {
    var node := side.nodes[id];
    var level := side.levels[node.price];
    SideIndex(side.levels[node.price := level.(quantity := level.quantity - quantity)], side.heap,
              side.nodes[id := node.(quantity := node.quantity - quantity)])
  }

  /** `remove` on one side: nothing for an unknown order, else unlink it and keep the heap in bounds. */
  method Without(side: SideIndex, id: string, ghost qs: Queues, s: Side) returns (after: SideIndex)
    requires Represents(side, qs, s)
    ensures Represents(after, Dropped(qs, id), s) && (Compacted(side) ==> Compacted(after))
  {
    NodesAreListed(side, qs, s, id);
    if id !in side.nodes {
      DropAbsent(side, qs, s, id);
      return side;
    }
    var unlinked := Unlink(side, id, qs, s);
    var heap := Compact(unlinked, Dropped(qs, id), s);
    after := unlinked.(heap := heap);
  }

  /** The unlinking part of `remove`: close the gap left by a node, and the level if it was the last one. */
  method Unlink(side: SideIndex, id: string, ghost qs: Queues, ghost s: Side) returns (after: SideIndex)
    requires Represents(side, qs, s) && id in side.nodes
    ensures Represents(after, Dropped(qs, id), s) && after.heap == side.heap
  {
    hide Sum, Strip;
    var levels, nodes := side.levels, side.nodes;
    var node := nodes[id];
    ghost var q := qs[node.price];
    ghost var k :| 0 <= k < |q| && q[k].id == id;
    assert Linked(side.nodes, q, node.price, k);
    nodes := nodes - {id};
    var level := levels[node.price];
    if node.previous.None? {
      level := level.(head := node.next);
    } else {
      RelinkedHas(side.nodes, q, node.price, k, k - 1);
      nodes := nodes[node.previous.value := nodes[node.previous.value].(next := node.next)];
    }
    if node.next.None? {
      level := level.(tail := node.previous);
    } else {
      RelinkedHas(side.nodes, q, node.price, k, k + 1);
      nodes := nodes[node.next.value := nodes[node.next.value].(previous := node.previous)];
    }
    level := level.(quantity := level.quantity - node.quantity);
    levels := levels[node.price := level];
    if level.head.None? {
      levels := levels - {node.price};
    }
    LevelWithout(q, k);
    after := SideIndex(levels, side.heap, nodes);
    RemoveRepresents(side, qs, s, node.price, k, after);
  }

  lemma RelinkedHas(nodes: map<string, Node>, q: seq<Slot>, price: int, k: nat, j: int)
    requires Chain(nodes, q, price) && k < |q| && 0 <= j < |q| && j != k
    ensures q[j].id in nodes && q[j].id != q[k].id
  {
    assert Linked(nodes, q, price, j);
  }

  lemma LevelWithout(q: seq<Slot>, k: nat)
    requires k < |q|
    ensures var r := q[..k] + q[k + 1..];
      LevelOf(r) == Level(if k == 0 then IdAt(q, 1) else IdAt(q, 0), if k == |q| - 1 then IdAt(q, k - 1)
          else IdAt(q, |q| - 1),
                          Sum(q) - q[k].quantity)
  {
    SumWithout(q, k);
  }

  /** The heap part of `remove`: rebuild it from the live levels once stale prices outnumber them. */
  method Compact(side: SideIndex, ghost qs: Queues, s: Side) returns (heap: seq<int>)
    requires Represents(side, qs, s)
    ensures IsHeap(heap) && forall p :: p in qs ==> Sign(s) * p in heap
    ensures |heap| <= 2 * |side.levels| + 8
  {
    heap := side.heap;
    if |heap| > 2 * |side.levels| + 8 {
      var prices := SortedValues(side.levels.Keys);
      var values := seq(|prices|, i requires 0 <= i < |prices| => Sign(s) * prices[i]);
      CompactedHolds(prices, values, s);
      heap := Heapify(values);
      SameHeapValues(heap, values);
    }
  }

  // ---------------------------------------------------------------- representation lemmas

  lemma NodesAreListed(ix: SideIndex, qs: Queues, side: Side, id: string)
    requires Represents(ix, qs, side)
    ensures id in ix.nodes <==> Listed(qs, id)
    ensures id in ix.nodes ==> ix.nodes[id].price in qs && Queued(qs[ix.nodes[id].price], id)
  {
    if Listed(qs, id) {
      var p :| p in qs && Queued(qs[p], id);
      var i :| 0 <= i < |qs[p]| && qs[p][i].id == id;
      assert Linked(ix.nodes, qs[p], p, i);
    }
  }

  lemma NodeOfSlot(ix: SideIndex, qs: Queues, side: Side, price: int, k: nat)
    requires Represents(ix, qs, side) && price in qs && k < |qs[price]|
    ensures var slot := qs[price][k];
      slot.quantity > 0 && slot.id in ix.nodes && ix.nodes[slot.id].price == price
        && ix.nodes[slot.id].quantity == slot.quantity
  {
    assert Linked(ix.nodes, qs[price], price, k);
  }

  lemma LevelsOfQueues(ix: SideIndex, qs: Queues, side: Side)
    requires Represents(ix, qs, side)
    ensures ix.levels.Keys == qs.Keys && IsHeap(ix.heap)
    ensures forall p :: p in qs ==> qs[p] != [] && ix.levels[p].head == Some(qs[p][0].id) && Sign(side) * p in ix.heap
  {
  }

  /** Any heap that holds every live price will do. */
  lemma HeapMayShrink(ix: SideIndex, qs: Queues, side: Side, heap: seq<int>)
    requires Represents(ix, qs, side) && IsHeap(heap) && forall p :: p in qs ==> Sign(side) * p in heap
    ensures Represents(ix.(heap := heap), qs, side)
  {
  }

  /** An order is queued at one price only: the price its node carries. */
  lemma QueuedAtNodePrice(ix: SideIndex, qs: Queues, side: Side, p: int, id: string)
    requires Represents(ix, qs, side) && p in qs && Queued(qs[p], id)
    ensures id in ix.nodes && ix.nodes[id].price == p
  {
    var i :| 0 <= i < |qs[p]| && qs[p][i].id == id;
    assert Linked(ix.nodes, qs[p], p, i);
  }

  lemma DropAbsent(ix: SideIndex, qs: Queues, side: Side, id: string)
    requires Represents(ix, qs, side) && !Listed(qs, id)
    ensures Dropped(qs, id) == qs
  {
    forall p | p in qs ensures Strip(qs[p], id) == qs[p] { StripAbsent(qs[p], id); }
    assert forall p :: p in qs <==> p in Dropped(qs, id);
  }

  /** One queue exchanged for another; an empty one takes its level away. */
  function WithQueue(qs: Queues, price: int, q: seq<Slot>): Queues {
    if q == [] then qs - {price} else qs[price := q]
  }

  /** Nodes of other prices are exactly as before. */
  ghost predicate Confined(nodes: map<string, Node>, nodes': map<string, Node>, price: int) {
    && (forall id :: id in nodes && nodes[id].price != price ==> id in nodes' && nodes'[id] == nodes[id])
    && (forall id :: id in nodes' && nodes'[id].price != price ==> id in nodes && nodes[id] == nodes'[id])
  }

  /** The nodes at a price are queued there. */
  ghost predicate CoveredAt(nodes: map<string, Node>, q: seq<Slot>, price: int) {
    forall id :: id in nodes && nodes[id].price == price ==> Queued(q, id)
  }

  /** A change confined to one price that links up its new queue yields the index of the new queues. */
  lemma ReplaceQueue(ix: SideIndex, qs: Queues, side: Side, price: int, q: seq<Slot>, after: SideIndex)
    requires Represents(ix, qs, side)
    requires Confined(ix.nodes, after.nodes, price) && Chain(after.nodes, q, price) && CoveredAt(after.nodes, q, price)
    requires after.levels == if q == [] then ix.levels - {price} else ix.levels[price := LevelOf(q)]
    requires IsHeap(after.heap) && forall p :: p in WithQueue(qs, price, q) ==> Sign(side) * p in after.heap
    ensures Represents(after, WithQueue(qs, price, q), side)
  {
    var qs' := WithQueue(qs, price, q);
    forall p | p in qs' ensures Chain(after.nodes, qs'[p], p) {
      if p != price { ChainFrame(ix.nodes, after.nodes, qs[p], p); }
    }
    forall id | id in after.nodes ensures after.nodes[id].price in qs' && Queued(qs'[after.nodes[id].price], id) {
      if after.nodes[id].price != price { assert id in ix.nodes; }
    }
  }

  lemma AppendLocal(nodes: map<string, Node>, q: seq<Slot>, price: int, slot: Slot)
    requires Chain(nodes, q, price) && CoveredAt(nodes, q, price) && slot.id !in nodes && slot.quantity > 0
    ensures var nodes' := Appended(nodes, q, price, slot);
      Confined(nodes, nodes', price) && Chain(nodes', q + [slot], price) && CoveredAt(nodes', q + [slot], price)
  {
    var nodes' := Appended(nodes, q, price, slot);
    ChainAppend(nodes, q, price, slot);
    if q != [] { assert Linked(nodes, q, price, |q| - 1); }
    forall id | id in nodes' && nodes'[id].price == price ensures Queued(q + [slot], id) {
      if id == slot.id {
        assert (q + [slot])[|q|].id == id;
      } else {
        var i :| 0 <= i < |q| && q[i].id == id;
        assert (q + [slot])[i].id == id;
      }
    }
  }

  lemma RemoveLocal(nodes: map<string, Node>, q: seq<Slot>, price: int, k: nat)
    requires Chain(nodes, q, price) && CoveredAt(nodes, q, price) && k < |q|
    ensures var nodes' := Relinked(nodes - {q[k].id}, IdAt(q, k - 1), IdAt(q, k + 1)); var q' := q[..k] + q[k + 1..];
      Confined(nodes, nodes', price) && Chain(nodes', q', price) && CoveredAt(nodes', q', price)
  {
    var nodes', q' := Relinked(nodes - {q[k].id}, IdAt(q, k - 1), IdAt(q, k + 1)), q[..k] + q[k + 1..];
    ChainRemove(nodes, q, price, k);
    if k > 0 { assert Linked(nodes, q, price, k - 1); }
    if k + 1 < |q| { assert Linked(nodes, q, price, k + 1); }
    assert Linked(nodes, q, price, k);
    forall id | id in nodes' && nodes'[id].price == price ensures Queued(q', id) {
      assert id in nodes && id != q[k].id;
      var i :| 0 <= i < |q| && q[i].id == id;
      assert q'[if i < k then i else i - 1].id == id;
    }
  }

  lemma LowerLocal(nodes: map<string, Node>, q: seq<Slot>, price: int, k: nat, quantity: int)
    requires Chain(nodes, q, price) && CoveredAt(nodes, q, price) && k < |q| && 0 < quantity < q[k].quantity
    ensures Linked(nodes, q, price, k)
    ensures var nodes' := nodes[q[k].id := nodes[q[k].id].(quantity := q[k].quantity - quantity)];
      var q' := q[k := Slot(q[k].id, q[k].quantity - quantity)];
      Confined(nodes, nodes', price) && Chain(nodes', q', price) && CoveredAt(nodes', q', price)
  {
    ChainLower(nodes, q, price, k, quantity);
    var nodes', q' := nodes[q[k].id := nodes[q[k].id].(quantity := q[k].quantity - quantity)],
      q[k := Slot(q[k].id, q[k].quantity - quantity)];
    forall id | id in nodes' && nodes'[id].price == price ensures Queued(q', id) {
      var i :| 0 <= i < |q| && q[i].id == id;
      assert q'[i].id == id;
    }
  }

  lemma QueueIsLocal(ix: SideIndex, qs: Queues, side: Side, price: int)
    requires Represents(ix, qs, side)
    ensures Chain(ix.nodes, QueueAt(qs, price), price) && CoveredAt(ix.nodes, QueueAt(qs, price), price)
  {
  }

  lemma AddRepresents(ix: SideIndex, qs: Queues, side: Side, price: int, slot: Slot, after: SideIndex)
    requires Represents(ix, qs, side) && slot.id !in ix.nodes && slot.quantity > 0
    requires var q := QueueAt(qs, price);
      && after.nodes == Appended(ix.nodes, q, price, slot)
      && after.levels == ix.levels[price := LevelOf(q + [slot])]
    requires IsHeap(after.heap) && multiset(ix.heap) <= multiset(after.heap) && Sign(side) * price in after.heap
    ensures Represents(after, Enqueued(qs, price, slot), side)
  {
    QueueIsLocal(ix, qs, side, price);
    AppendLocal(ix.nodes, QueueAt(qs, price), price, slot);
    forall p | p in Enqueued(qs, price, slot) ensures Sign(side) * p in after.heap {
      if p in qs { assert Sign(side) * p in multiset(ix.heap); assert Sign(side) * p in multiset(after.heap); }
    }
    ReplaceQueue(ix, qs, side, price, QueueAt(qs, price) + [slot], after);
  }

  lemma QueueIsChain(ix: SideIndex, qs: Queues, side: Side, price: int)
    requires Represents(ix, qs, side) && price in qs
    ensures Chain(ix.nodes, qs[price], price)
  {
  }

  /** Dropping an order shortens its own queue at its place and touches no other. */
  lemma DropsOnly(ix: SideIndex, qs: Queues, side: Side, price: int, k: nat)
    requires Represents(ix, qs, side) && price in qs && k < |qs[price]|
    ensures Dropped(qs, qs[price][k].id) == WithQueue(qs, price, qs[price][..k] + qs[price][k + 1..])
  {
    hide Represents, Strip;
    var id, q := qs[price][k].id, qs[price][..k] + qs[price][k + 1..];
    QueueIsChain(ix, qs, side, price);
    assert Strip(qs[price], id) == q by { StripAt(qs[price], k); }
    assert Queued(qs[price], id);
    forall p | p in qs && p != price ensures Strip(qs[p], id) == qs[p] && qs[p] != [] {
      StripElsewhere(ix, qs, side, price, id, p);
    }
    assert forall p :: p in Dropped(qs, id) <==> p in qs && (p == price ==> q != []);
  }

  lemma StripElsewhere(ix: SideIndex, qs: Queues, side: Side, price: int, id: string, p: int)
    requires Represents(ix, qs, side) && price in qs && Queued(qs[price], id) && p in qs && p != price
    ensures Strip(qs[p], id) == qs[p] && !Queued(qs[p], id) && qs[p] != []
  {
    QueuedAtNodePrice(ix, qs, side, price, id);
    if Queued(qs[p], id) { QueuedAtNodePrice(ix, qs, side, p, id); }
    StripAbsent(qs[p], id);
  }

  lemma RemoveRepresents(ix: SideIndex, qs: Queues, side: Side, price: int, k: nat, after: SideIndex)
    requires Represents(ix, qs, side) && price in qs && k < |qs[price]|
    requires var q := qs[price][..k] + qs[price][k + 1..];
      && after.nodes == Relinked(ix.nodes - {qs[price][k].id}, IdAt(qs[price], k - 1), IdAt(qs[price], k + 1))
      && after.levels == if q == [] then ix.levels - {price} else ix.levels[price := LevelOf(q)]
    requires after.heap == ix.heap
    ensures Represents(after, Dropped(qs, qs[price][k].id), side)
  {
    QueueIsLocal(ix, qs, side, price);
    RemoveLocal(ix.nodes, qs[price], price, k);
    DropsOnly(ix, qs, side, price, k);
    ReplaceQueue(ix, qs, side, price, qs[price][..k] + qs[price][k + 1..], after);
  }

  lemma LowersOnly(ix: SideIndex, qs: Queues, side: Side, price: int, k: nat, quantity: int)
    requires Represents(ix, qs, side) && price in qs && k < |qs[price]|
    ensures Lowered(qs, qs[price][k].id, quantity)
      == qs[price := qs[price][k := Slot(qs[price][k].id, qs[price][k].quantity - quantity)]]
  {
    var id := qs[price][k].id;
    LowerAt(qs[price], k, quantity);
    assert Queued(qs[price], id);
    forall p | p in qs && p != price ensures Lower(qs[p], id, quantity) == qs[p] {
      StripElsewhere(ix, qs, side, price, id, p);
      LowerAbsent(qs[p], id, quantity);
    }
  }

  lemma ConsumeLocal(ix: SideIndex, qs: Queues, side: Side, price: int, k: nat, quantity: int, q: seq<Slot>)
    requires Represents(ix, qs, side) && price in qs && k < |qs[price]| && 0 < quantity < qs[price][k].quantity
    requires q == qs[price][k := Slot(qs[price][k].id, qs[price][k].quantity - quantity)]
    ensures var id := qs[price][k].id;
      id in ix.nodes && ix.nodes[id].price in ix.levels
        && Represents(Shrunk(ix, id, quantity), WithQueue(qs, price, q), side)
  {
    hide Chain, CoveredAt, Confined, IsHeap, LevelOf;
    QueueIsLocal(ix, qs, side, price);
    LowerLocal(ix.nodes, qs[price], price, k, quantity);
    ShrunkShape(ix, qs[price], price, k, quantity);
    ReplaceQueue(ix, qs, side, price, q, Shrunk(ix, qs[price][k].id, quantity));
  }

  lemma ConsumeRepresents(ix: SideIndex, qs: Queues, side: Side, price: int, k: nat, quantity: int)
    requires Represents(ix, qs, side) && price in qs && k < |qs[price]| && 0 < quantity < qs[price][k].quantity
    ensures var id := qs[price][k].id;
      && id in ix.nodes && ix.nodes[id].price in ix.levels
      && Represents(Shrunk(ix, id, quantity), Lowered(qs, id, quantity), side)
      && (Compacted(ix) ==> Compacted(Shrunk(ix, id, quantity)))
  {
    LowersOnly(ix, qs, side, price, k, quantity);
    ConsumeLocal(ix, qs, side, price, k, quantity,
        qs[price][k := Slot(qs[price][k].id, qs[price][k].quantity - quantity)]);
  }

  lemma ShrunkShape(ix: SideIndex, q: seq<Slot>, price: int, k: nat, quantity: int)
    requires k < |q| && Linked(ix.nodes, q, price, k) && price in ix.levels && ix.levels[price] == LevelOf(q)
    ensures Shrunk(ix, q[k].id, quantity)
         == SideIndex(ix.levels[price := LevelOf(q[k := Slot(q[k].id, q[k].quantity - quantity)])], ix.heap,
                      ix.nodes[q[k].id := ix.nodes[q[k].id].(quantity := q[k].quantity - quantity)])
  {
    SumLowered(q, k, quantity);
  }

  // ---------------------------------------------------------------- heap lemmas

  lemma RootIsBest(heap: seq<int>, qs: Queues, side: Side, price: int)
    requires IsHeap(heap) && heap != [] && price == heap[0] * Sign(side) && price in qs
    requires forall p :: p in qs ==> Sign(side) * p in heap
    ensures BestPrice(qs, side, price)
  {
    forall r | r in qs ensures Sign(side) * price <= Sign(side) * r {
      var i :| 0 <= i < |heap| && heap[i] == Sign(side) * r;
      RootIsLeast(heap, i);
    }
  }

  /** Popping a price without a level loses no live price. */
  lemma PopKeepsLive(full: seq<int>, heap: seq<int>, qs: Queues, side: Side)
    requires full != [] && multiset(heap) == multiset(full) - multiset{full[0]}
    requires full[0] * Sign(side) !in qs && forall p :: p in qs ==> Sign(side) * p in full
    ensures forall p :: p in qs ==> Sign(side) * p in heap
  {
    forall p | p in qs ensures Sign(side) * p in heap {
      assert Sign(side) * p in multiset(full) && Sign(side) * p != full[0];
      assert Sign(side) * p in multiset(heap);
    }
  }

  lemma CompactedHolds(prices: seq<int>, values: seq<int>, side: Side)
    requires |values| == |prices| && forall i :: 0 <= i < |values| ==> values[i] == Sign(side) * prices[i]
    ensures forall p :: p in prices ==> Sign(side) * p in values
  {
    forall p | p in prices ensures Sign(side) * p in values {
      var i :| 0 <= i < |prices| && prices[i] == p;
      assert values[i] in values;
    }
  }

  lemma OneMoreValue(heap: seq<int>, before: seq<int>, x: int)
    requires multiset(heap) == multiset(before) + multiset{x}
    ensures |heap| == |before| + 1
  {
    assert |multiset(heap)| == |heap| && |multiset(before)| == |before|;
  }

  lemma SameHeapValues(heap: seq<int>, values: seq<int>)
    requires multiset(heap) == multiset(values)
    ensures |heap| == |values| && forall x :: x in values ==> x in heap
  {
    assert |multiset(heap)| == |heap| && |multiset(values)| == |values|;
    forall x | x in values ensures x in heap { assert x in multiset(heap); }
  }
}
