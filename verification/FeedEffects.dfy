/** What any batch at all can do to the market projection, genuine or not, and how many rows the feed keeps. */
module FeedEffects {
  import opened Wrappers
  import opened Sorting
  import opened Digests
  import opened Exchange
  import opened Ledger
  import opened Evolution
  import opened Books
  import opened OrderIndex
  import opened MarketFeed

  // ---------------------------------------------------------------- batches from anywhere

  /** The projection is consistent in itself: books, executions and fills agree, executions are numbered densely from
      one and named once, and every order belongs to a listed stock. */
  ghost predicate Sane(p: Projection) {
    && Reconciles(p)
    && (forall i :: 0 <= i < |p.trades| ==> p.trades[i].executionSeq == i + 1)
    && (forall i, j :: 0 <= i < j < |p.trades| ==> TradeId(p.trades[i]) != TradeId(p.trades[j]))
    && (forall id :: id in p.orders ==> p.orders[id].symbol in p.rules.symbols)
  }

  /** Executions are only added and orders only progress; what is new is of row `seqno`. */
  ghost predicate Grows(p: Projection, q: Projection, seqno: int) {
    && p.trades <= q.trades && q.rules == p.rules
    && (forall k :: |p.trades| <= k < |q.trades| ==> q.trades[k].seqno == seqno)
    && (forall id :: id in p.orders ==> id in q.orders && Advances(p.orders[id], q.orders[id]))
    && (forall id :: id in q.orders && id !in p.orders ==> q.orders[id].seqno == seqno)
  }

  /** A merged order is the old one or one of the updates. */
  lemma {:induction false} MergedFrom(orders: map<string, Order>, updates: seq<Order>, id: string)
    ensures id in Merge(orders, updates) <==> id in orders || exists i :: 0 <= i < |updates| && updates[i].orderId == id
    ensures id in Merge(orders, updates) ==>
      (id in orders && Merge(orders, updates)[id] == orders[id])
      || exists i :: 0 <= i < |updates| && updates[i].orderId == id && updates[i] == Merge(orders, updates)[id]
    decreases |updates|
  {
    if updates != [] {
      MergedFrom(orders[updates[0].orderId := updates[0]], updates[1..], id);
      assert updates == [updates[0]] + updates[1..];
    }
  }

  lemma PatchGrows(p: Projection, b: Batch)
    requires Follows(p, b)
    ensures Grows(p, Patch(p, b), b.seqno)
    ensures forall id :: id in Patch(p, b).orders && (id !in p.orders || Patch(p, b).orders[id] != p.orders[id]) ==>
      Patch(p, b).orders[id].symbol in p.rules.symbols
  {
    hide Reconciles, Merge, MergeIds;
    var q := Patch(p, b);
    forall id | id in q.orders
      ensures if id in p.orders then Advances(p.orders[id], q.orders[id]) else q.orders[id].seqno == b.seqno
      ensures id !in p.orders || q.orders[id] != p.orders[id] ==> q.orders[id].symbol in p.rules.symbols
    {
      MergedFrom(p.orders, b.orders, id);
    }
    forall id | id in p.orders ensures id in q.orders { MergedFrom(p.orders, b.orders, id); }
  }

  lemma PatchKeepsSane(p: Projection, b: Batch)
    requires Sane(p) && Follows(p, b)
    ensures Sane(Patch(p, b)) && Grows(p, Patch(p, b), b.seqno)
  {
    hide Reconciles, Merge, MergeIds, Advances;
    PatchGrows(p, b);
    var q := Patch(p, b);
    var n := |p.trades|;
    assert forall k :: n <= k < |q.trades| ==> q.trades[k] == b.trades[k - n];
    assert TradesFollow(p.trades, b.trades, p.rules.symbols, b.seqno);
    forall i, j | 0 <= i < j < |q.trades| ensures TradeId(q.trades[i]) != TradeId(q.trades[j]) {
      if j >= n {
        assert q.trades[j] == b.trades[j - n];
        if i >= n { assert q.trades[i] == b.trades[i - n]; }
      }
    }
  }

  /** Whatever batch is offered: it leaves the store alone, or it is the next row behind the projection's own head, and
      the projection it leaves is consistent and has only grown. */
  lemma AcceptedIsChecked(st: Store, b: Batch, epoch: int)
    requires Apply(st, b, epoch).Ok?
    ensures var t := Apply(st, b, epoch).value;
      && st.view.Some? && epoch >= st.view.value.epoch
      && ((t == st && b in st.recent)
          || (t.view.Some? && var p, q := st.view.value, t.view.value;
              && b.seqno == q.seqno == p.seqno + 1 && b.previous == p.head && q.head == b.head && q.epoch == epoch
              && Grows(p, q, q.seqno) && (Sane(p) ==> Sane(q))))
  {
    hide Reconciles, Merge, MergeIds, Advances, Grows, Patch, Follows, Retained;
    var p := st.view.value;
    if b.seqno <= p.seqno {
      ReceiptIsRetained(st.recent, b.seqno);
    } else {
      PatchGrows(p, b);
      if Sane(p) { PatchKeepsSane(p, b); }
      CursorIsApart(p, Patch(p, b), b.seqno, b.head, epoch);
    }
  }

  lemma CursorIsApart(p: Projection, q: Projection, seqno: int, head: Hash, epoch: int)
    ensures var r := q.(seqno := seqno, head := head, epoch := epoch);
      (Grows(p, r, seqno) <==> Grows(p, q, seqno)) && (Sane(r) <==> Sane(q))
  {
    ReconcilesIgnoresCursor(q, seqno, head, epoch);
  }

  lemma {:induction false} ReceiptIsRetained(recent: seq<Batch>, seqno: int)
    ensures Receipt(recent, seqno).Some? ==> Receipt(recent, seqno).value in recent
  {
    if recent != [] { ReceiptIsRetained(recent[1..], seqno); }
  }

  // ---------------------------------------------------------------- whole runs

  /** The state of every log is consistent. */
  lemma {:induction false} GenuineIsSane(h: RowHash, x: History, epoch: int)
    requires Genuine(x)
    ensures Sane(ProjectionOf(h, x, epoch))
    decreases |x.commands|
  {
    hide Replay, Head, Reconciles, LevelsOf, BooksOf, Follows, Patch, BatchOf;
    SoundReconciles(h, x, epoch);
    if x.commands == [] {
      Nothing(x);
    } else {
      EarlierIsGenuine(x);
      GenuineIsSane(h, Before(x), epoch);
      NextBatchFollows(h, x, epoch);
      PatchKeepsSane(ProjectionOf(h, Before(x), epoch), BatchOf(h, x));
      PatchIsNext(h, x, epoch, epoch);
      var q := Patch(ProjectionOf(h, Before(x), epoch), BatchOf(h, x));
      CursorIsApart(q, q, Length(x), Head(h, x), epoch);
    }
  }

  lemma Nothing(x: History)
    requires Genuine(x) && x.commands == []
    ensures StateOf(x).trades == [] && StateOf(x).orders == map[]
  {
  }

  /** A batch from anywhere, or the snapshot of a log. */
  datatype Offering = Pushed(batch: Batch, epoch: int) | Pulled(source: History, epoch: int)

  function Taken(h: RowHash, st: Store, o: Offering): Store
    requires o.Pulled? ==> Genuine(o.source)
  {
    var r := if o.Pushed? then Apply(st, o.batch, o.epoch) else Replace(st, SnapshotOf(h, o.source), o.epoch);
    if r.Ok? then r.value else st
  }

  function RunAll(h: RowHash, os: seq<Offering>): Store
    requires forall i :: 0 <= i < |os| && os[i].Pulled? ==> Genuine(os[i].source)
  {
    if os == [] then Store(None, 0, []) else Taken(h, RunAll(h, os[..|os| - 1]), os[|os| - 1])
  }

  /** However a feed distorts, repeats or invents batches, the projection stays consistent; and its epoch and position
      never go back. */
  lemma {:induction false} ProjectionStaysConsistent(h: RowHash, os: seq<Offering>)
    requires forall i :: 0 <= i < |os| && os[i].Pulled? ==> Genuine(os[i].source)
    ensures RunAll(h, os).view.Some? ==> Sane(RunAll(h, os).view.value)
    ensures os != [] && RunAll(h, os[..|os| - 1]).view.Some? ==>
      var before, after := RunAll(h, os[..|os| - 1]).view.value, RunAll(h, os).view;
      after.Some? && after.value.epoch >= before.epoch && after.value.seqno >= before.seqno
  {
    hide Sane, Apply, Replace, SnapshotOf, Genuine;
    if os != [] {
      var front, o := os[..|os| - 1], os[|os| - 1];
      ProjectionStaysConsistent(h, front);
      var st := RunAll(h, front);
      if o.Pushed? {
        if Apply(st, o.batch, o.epoch).Ok? { AcceptedIsChecked(st, o.batch, o.epoch); }
      } else {
        PulledIsSane(h, st, o.source, o.epoch);
      }
    }
  }

  lemma PulledIsSane(h: RowHash, st: Store, y: History, e: int)
    requires Genuine(y) && (st.view.Some? ==> Sane(st.view.value))
    ensures var r := Replace(st, SnapshotOf(h, y), e);
      && (r.Ok? ==> r.value.view == Some(ProjectionOf(h, y, e)) && Sane(r.value.view.value))
      && (r.Ok? && st.view.Some? ==> e >= st.view.value.epoch && Length(y) >= st.view.value.seqno)
  {
    hide Sane, Replay, Head, BooksOf;
    SettingsStay(y);
    GenuineIsSane(h, y, e);
  }

  // ---------------------------------------------------------------- what a batch holds

  /** The order differs from what it was. */
  predicate Differs(before: map<string, Order>, o: Order) {
    o.orderId !in before || before[o.orderId] != o
  }

  lemma {:induction false} ChangedExactly(before: map<string, Order>, after: map<string, Order>, ids: seq<string>)
    requires Distinct(ids) && forall i :: 0 <= i < |ids| ==> ids[i] in after && after[ids[i]].orderId == ids[i]
    ensures var us := Changed(before, after, ids);
      && (forall i :: 0 <= i < |us| ==> us[i].orderId in ids && us[i] == after[us[i].orderId] && Differs(before, us[i]))
      && (forall id :: id in ids && Differs(before, after[id]) ==> after[id] in us)
      && forall i, j :: 0 <= i < j < |us| ==> us[i].orderId != us[j].orderId
  {
    if ids != [] {
      var rest := ids[1..];
      assert forall i :: 0 <= i < |rest| ==> rest[i] == ids[i + 1];
      assert ids == [ids[0]] + rest && ids[0] !in rest;
      ChangedExactly(before, after, rest);
    }
  }

  /** A row's batch holds exactly the orders the command entered or changed, each once, exactly the price levels whose
      size changed, with their new size, and exactly the new trades. */
  lemma BatchHoldsChanges(h: RowHash, x: History)
    requires Genuine(x) && x.commands != []
    ensures Genuine(Before(x))
    ensures var b, s, prior := BatchOf(h, x), StateOf(x), StateOf(Before(x));
      && (forall o :: o in b.orders <==> o.orderId in s.orders && o == s.orders[o.orderId] && Differs(prior.orders, o))
      && (forall i, j :: 0 <= i < j < |b.orders| ==> b.orders[i].orderId != b.orders[j].orderId)
      && prior.trades + b.trades == s.trades
      && TellsLevels(BooksAt(Before(x)), BooksAt(x), b.books)
  {
    hide Sound, Wf, Head, Replay, BooksOf, BookDiff, Changed, Evolves, TellsLevels;
    SuccessorState(x);
    var s, prior := StateOf(x), StateOf(Before(x));
    SoundIsWf(s);
    StateIds(s);
    EvolvedParts(prior, s, Length(x));
    ChangedExactly(prior.orders, s.orders, s.ids);
    var b := BatchOf(h, x);
    assert b.orders == Changed(prior.orders, s.orders, s.ids);
    forall o ensures o in b.orders <==> o.orderId in s.orders && o == s.orders[o.orderId] && Differs(prior.orders, o) {
      if o in b.orders {
        var i :| 0 <= i < |b.orders| && b.orders[i] == o;
        assert b.orders[i].orderId in s.ids;
      }
    }
    BookDiffTells(BooksAt(Before(x)), BooksAt(x));
  }

  function LevelsIn(books: Books, m: Market): Levels { if m in books then books[m] else map[] }

  /** The updates name exactly the prices whose size differs, with the new size. */
  ghost predicate TellsLevels(before: Books, after: Books, updates: Books) {
    && updates.Keys <= after.Keys
    && forall m, p :: m in after ==>
         (p in LevelsIn(updates, m) <==> Size(LevelsIn(before, m), p) != Size(after[m], p))
         && (p in LevelsIn(updates, m) ==> LevelsIn(updates, m)[p] == Size(after[m], p))
  }

  lemma BookDiffTells(before: Books, after: Books)
    ensures TellsLevels(before, after, BookDiff(before, after))
  {
    forall m | m in after && !Touched(before, after, m.symbol) ensures DiffAt(before, after, m) == map[] {
      assert m.side.Buy? || m.side.Sell?;
    }
    var updates := BookDiff(before, after);
    forall m | m in after ensures LevelsIn(updates, m) == Diff(LevelsIn(before, m), after[m]) {
      assert DiffAt(before, after, m) == Diff(LevelsIn(before, m), after[m]);
    }
  }

  // ---------------------------------------------------------------- retention and replacements

  /** Each accepted row is kept until eight later ones have come; a replacement starts over and is counted. */
  lemma RetentionIsExact(h: RowHash, st: Store, x: History, epoch: int, y: History, e: int)
    requires CollisionFree(h) && Faithful(h, st, x, epoch) && Genuine(y) && e >= epoch
    ensures Successor(x, y) ==>
      var r := Apply(st, BatchOf(h, y), e);
      && r.Ok? && Faithful(h, r.value, y, e) && r.value.resyncs == st.resyncs
      && |r.value.recent| == Min(|st.recent| + 1, 8)
    ensures Length(y) > Length(x) ==>
      Replace(st, SnapshotOf(h, y), e) == Ok(Store(Some(ProjectionOf(h, y, e)), st.resyncs + 1, []))
    ensures Replace(st, SnapshotOf(h, x), epoch) == Ok(st)
  {
    hide Follows, Patch, BatchOf, Replay, Head, BooksOf, Retained, CollisionFree, IsRow;
    SettingsStay(x);
    SettingsStay(y);
    if Successor(x, y) {
      OfferedBatch(h, st, x, epoch, y, e);
      BatchSeqno(h, y);
      RowsGrow(h, st, x, y, epoch);
      RetainedFrom(st.recent + [BatchOf(h, y)], First(st, x), Length(y) - WINDOW);
    }
  }
}
