/** Price-time priority of the matching loop, self-trade prevention, and the uncrossed book. */
module Priority {
  import opened Wrappers
  import opened Exchange
  import opened Ledger

  // ---------------------------------------------------------------- the uncrossed book

  ghost predicate Crossing(a: Order, b: Order) {
    Resting(a, a.symbol, Buy) && Resting(b, a.symbol, Sell) && a.price >= b.price
  }

  /** No resting bid reaches a resting ask, leaving order `but` aside. */
  ghost predicate UncrossedBut(orders: map<string, Order>, but: Option<string>) {
    forall a, b :: a in orders && b in orders && but != Some(a) && but != Some(b) ==> !Crossing(orders[a], orders[b])
  }

  /** Orders only lose remainder or close: nothing starts resting, nothing changes its price. */
  ghost predicate Shrinks(before: map<string, Order>, after: map<string, Order>) {
    forall id :: id in after ==> id in before && SameIdentity(before[id], after[id])
                                 && (after[id].Active() && after[id].remaining > 0 ==>
                                      before[id].Active() && before[id].remaining > 0)
  }

  lemma ShrinkKeepsUncrossed(before: map<string, Order>, after: map<string, Order>, but: Option<string>)
    requires UncrossedBut(before, but) && Shrinks(before, after)
    ensures UncrossedBut(after, but)
  {
    forall a, b | a in after && b in after && but != Some(a) && but != Some(b) ensures !Crossing(after[a], after[b]) {
      assert !Crossing(before[a], before[b]);
    }
  }

  /** An order that does not rest, or that no opposing order reaches, rejoins the book without crossing it. */
  lemma Rejoins(orders: map<string, Order>, id: string)
    requires id in orders && UncrossedBut(orders, Some(id))
    requires var o := orders[id];
      o.Active() && o.remaining > 0 ==>
        forall x :: x in orders && Resting(orders[x], o.symbol, o.side.Opposite()) ==> Beyond(o, orders[x])
    ensures UncrossedBut(orders, None)
  {
    forall a, b | a in orders && b in orders ensures !Crossing(orders[a], orders[b]) {
      if a != id && b != id { assert Some(id) != Some(a) && Some(id) != Some(b); }
    }
  }

  lemma FillShrinks(s: State, id: string, maker: string, index: nat)
    requires Wf(s) && Tradable(s, id, maker)
    ensures Shrinks(s.orders, Fill(s, id, maker, index).orders)
  {
  }

  lemma BeyondBestIsBeyondAll(s: State, id: string)
    requires Wf(s) && id in s.orders
    requires var o := s.orders[id]; var best := Best(s, o.symbol, o.side.Opposite());
      best.None? || Beyond(o, s.orders[best.value])
    ensures var o := s.orders[id];
      forall x :: x in s.orders && Resting(s.orders[x], o.symbol, o.side.Opposite()) ==> Beyond(o, s.orders[x])
  {
    ScanFindsBest(s, s.orders[id].symbol, s.orders[id].side.Opposite());
  }

  /** When the loop stops, no resting bid reaches a resting ask. */
  lemma {:induction false} MatchUncrosses(s: State, id: string, index: nat)
    requires Wf(s) && Working(s, id) && UncrossedBut(s.orders, Some(id))
    ensures UncrossedBut(Match(s, id, index).orders, None)
    decreases s.orders[id].remaining
  {
    var o := s.orders[id];
    var best := Best(s, o.symbol, o.side.Opposite());
    if o.remaining <= 0 {
      Rejoins(s.orders, id);
    } else if best.None? || Beyond(o, s.orders[best.value]) {
      BeyondBestIsBeyondAll(s, id);
      Rejoins(s.orders, id);
    } else {
      PickedMakerTrades(s, id);
      if s.orders[best.value].owner == o.owner {
        var t := Release(s, id, SelfTradePrevention);
        ShrinkKeepsUncrossed(s.orders, t.orders, Some(id));
        Rejoins(t.orders, id);
      } else {
        var t := Fill(s, id, best.value, index + 1);
        FillKeepsWf(s, id, best.value, index + 1);
        FillShrinks(s, id, best.value, index + 1);
        ShrinkKeepsUncrossed(s.orders, t.orders, Some(id));
        MatchUncrosses(t, id, index + 1);
      }
    }
  }

  lemma {:induction false} ExpireKeepsUncrossed(s: State, n: nat, day: int)
    requires n <= |s.ids| && UncrossedBut(s.orders, None)
    ensures UncrossedBut(Expire(s, n, day).orders, None)
  {
    if n > 0 {
      ExpireKeepsUncrossed(s, n - 1, day);
      ShrinkKeepsUncrossed(Expire(s, n - 1, day).orders, Expire(s, n, day).orders, None);
    }
  }

  lemma EnterUncrossedBut(s: State, c: Command)
    requires c.body.New? && UncrossedBut(s.orders, None) && c.body.orderId !in s.orders
    ensures UncrossedBut(Enter(s, c).orders, Some(c.body.orderId))
  {
    var t := Enter(s, c);
    forall a, b | a in t.orders && b in t.orders && Some(c.body.orderId) != Some(a) && Some(c.body.orderId) != Some(b)
      ensures !Crossing(t.orders[a], t.orders[b])
    {
      assert !Crossing(s.orders[a], s.orders[b]);
    }
  }

  lemma DoNewKeepsUncrossed(t: State, c: Command)
    requires Wf(t) && c.body.New? && c.owner in t.settings.owners && c.body.price > 0 && c.body.quantity > 0
    requires t.lastSeq == c.seqno && forall id :: id in t.orders ==> t.orders[id].seqno < c.seqno
    requires UncrossedBut(t.orders, None)
    ensures UncrossedBut(DoNew(t, c).orders, None)
  {
    if Refusal(t, c).None? {
      EnterKeepsWf(t, c);
      EnterUncrossedBut(t, c);
      MatchUncrosses(Enter(t, c), c.body.orderId, 0);
    }
  }

  lemma DoCancelKeepsUncrossed(t: State, c: Command)
    requires UncrossedBut(t.orders, None)
    ensures UncrossedBut(DoCancel(t, c).orders, None)
  {
    if c.body.orderId in t.orders {
      ShrinkKeepsUncrossed(t.orders, Release(t, c.body.orderId, UserCancel).orders, None);
    }
  }

  /** Every command leaves every symbol's book uncrossed. */
  lemma ReduceKeepsUncrossed(s: State, c: Command)
    requires Wf(s) && UncrossedBut(s.orders, None) && Reduce(s, c).Some?
    ensures UncrossedBut(Reduce(s, c).value.orders, None)
  {
    var u := s.(lastSeq := c.seqno, lastTimestamp := c.timestamp);
    ExpireKeepsUncrossed(u, |u.ids|, DayOf(c.timestamp));
    OpenedIsWf(s, c);
    if c.body.New? {
      DoNewKeepsUncrossed(Opened(s, c), c);
    } else {
      DoCancelKeepsUncrossed(Opened(s, c), c);
    }
  }

  /** In every reachable state each symbol's best bid is below its best ask. */
  lemma {:induction false} ReplayIsUncrossed(rules: Settings, commands: seq<Command>)
    requires SettingsOk(rules) && Replay(rules, commands).Some?
    ensures UncrossedBut(Replay(rules, commands).value.orders, None)
  {
    if commands != [] {
      var front := commands[..|commands| - 1];
      ReplayIsUncrossed(rules, front);
      ReplayIsSound(rules, front);
      ReduceKeepsUncrossed(Replay(rules, front).value, commands[|commands| - 1]);
    }
  }

  // ---------------------------------------------------------------- priority

  function MakerOf(t: Trade, id: string): string {
    if t.buyOrder == id then t.sellOrder else t.buyOrder
  }

  /** A trade of incoming order `id` between `s` and `t`: at the maker's price, within the limit, with another
      owner, and every order that outranks the maker has been filled to the end. */
  ghost predicate FairTrade(s: State, t: State, id: string, e: Trade) {
    && var m := MakerOf(e, id);
    && id in s.orders && m in s.orders && s.orders.Keys == t.orders.Keys
    && var o := s.orders[id];
    && Resting(s.orders[m], o.symbol, o.side.Opposite()) && e.price == s.orders[m].price && !Beyond(o, s.orders[m])
    && s.orders[m].owner != o.owner
    && forall x :: x in s.orders && Resting(s.orders[x], o.symbol, o.side.Opposite()) ==>
         Outranks(s.orders[x], s.orders[m]) ==> t.orders[x].status.Filled?
  }

  /** All trades between `s` and `t` are fair and come in strict priority order; earlier trades stand. */
  ghost predicate FairRun(s: State, t: State, id: string) {
    && s.trades <= t.trades
    && (forall k :: |s.trades| <= k < |t.trades| ==> FairTrade(s, t, id, t.trades[k]))
    && (forall j, k :: |s.trades| <= j < k < |t.trades| ==>
          Outranks(s.orders[MakerOf(t.trades[j], id)], s.orders[MakerOf(t.trades[k], id)]))
  }

  /** Matching leaves alone every order that was not resting opposite the incoming one. */
  lemma {:induction false} MatchLeavesOthers(s: State, id: string, index: nat, x: string)
    requires id in s.orders && x in s.orders && x != id
    requires !Resting(s.orders[x], s.orders[id].symbol, s.orders[id].side.Opposite())
    ensures Match(s, id, index).orders[x] == s.orders[x]
    decreases s.orders[id].remaining
  {
    var o := s.orders[id];
    var best := Best(s, o.symbol, o.side.Opposite());
    if o.remaining > 0 && best.Some? && !Beyond(o, s.orders[best.value]) && s.orders[best.value].owner != o.owner {
      MatchLeavesOthers(Fill(s, id, best.value, index + 1), id, index + 1, x);
    }
  }

  /** After one execution either the incoming order or the maker is used up. */
  lemma FillUsesUp(s: State, id: string, maker: string, index: nat)
    requires Wf(s) && Tradable(s, id, maker)
    ensures var t := Fill(s, id, maker, index);
      && t.orders.Keys == s.orders.Keys
      && (t.orders[id].remaining == 0 || t.orders[maker].status.Filled?)
      && t.trades == s.trades + [t.trades[|s.trades|]] && MakerOf(t.trades[|s.trades|], id) == maker
      && t.trades[|s.trades|].price == s.orders[maker].price
      && forall x :: x in s.orders && x != id && x != maker ==> t.orders[x] == s.orders[x]
  {
    assert OrderOk(s.settings, s.lastSeq, id, s.orders[id]) && OrderOk(s.settings, s.lastSeq, maker, s.orders[maker]);
  }

  /** A filled incoming order trades no more. */
  lemma SpentOrderStops(s: State, id: string, index: nat)
    requires id in s.orders && s.orders[id].remaining <= 0
    ensures Match(s, id, index) == s
  {
  }

  lemma FairStep(s: State, u: State, t: State, id: string, maker: string, index: nat, e: Trade)
    requires Wf(s) && Tradable(s, id, maker) && u == Fill(s, id, maker, index)
    requires IsBest(s.orders, s.orders[id].symbol, s.orders[id].side.Opposite(), maker)
    requires maker in t.orders && u.orders[maker].status.Filled? && t.orders[maker] == u.orders[maker]
      && FairTrade(u, t, id, e)
    ensures FairTrade(s, t, id, e) && Outranks(s.orders[maker], s.orders[MakerOf(e, id)])
  {
    FillUsesUp(s, id, maker, index);
    var o, m := s.orders[id], MakerOf(e, id);
    assert u.orders[m] == s.orders[m] && m != maker;
    forall x | x in s.orders && Resting(s.orders[x], o.symbol, o.side.Opposite()) && Outranks(s.orders[x], s.orders[m])
      ensures t.orders[x].status.Filled?
    {
      if x != maker { assert u.orders[x] == s.orders[x]; }
    }
  }

  /** The first execution followed by a fair run is a fair run. */
  lemma FairCompose(s: State, u: State, t: State, id: string, maker: string, index: nat)
    requires Wf(s) && Parties(s, id, maker) && u == Fill(s, id, maker, index)
    requires IsBest(s.orders, s.orders[id].symbol, s.orders[id].side.Opposite(), maker)
    requires u.orders.Keys == t.orders.Keys && FairRun(u, t, id)
    requires t == u || (u.orders[maker].status.Filled? && t.orders[maker] == u.orders[maker])
    ensures FairRun(s, t, id)
  {
    FillUsesUp(s, id, maker, index);
    assert t.trades[|s.trades|] == u.trades[|s.trades|];
    FirstTradeIsFair(s, t, id, maker, t.trades[|s.trades|]);
    forall k | |u.trades| <= k < |t.trades|
      ensures FairTrade(s, t, id, t.trades[k]) && Outranks(s.orders[maker], s.orders[MakerOf(t.trades[k], id)])
    {
      FairStep(s, u, t, id, maker, index, t.trades[k]);
    }
    RankedRun(s, u, t, id, maker);
  }

  /** Fills come in exact price-then-sequence order, at the resting price, never beyond the limit, never with
      the same owner; a better order is always used up first; and earlier fills are kept. */
  lemma {:induction false} MatchIsFair(s: State, id: string, index: nat)
    requires Wf(s) && Working(s, id)
    ensures FairRun(s, Match(s, id, index), id)
    decreases s.orders[id].remaining
  {
    var o := s.orders[id];
    var best := Best(s, o.symbol, o.side.Opposite());
    if o.remaining > 0 && best.Some? && !Beyond(o, s.orders[best.value]) && s.orders[best.value].owner != o.owner {
      var maker := best.value;
      PickedMakerTrades(s, id);
      ScanFindsBest(s, o.symbol, o.side.Opposite());
      FillUsesUp(s, id, maker, index + 1);
      FillKeepsWf(s, id, maker, index + 1);
      var u := Fill(s, id, maker, index + 1);
      MatchIsFair(u, id, index + 1);
      if u.orders[id].remaining == 0 {
        SpentOrderStops(u, id, index + 1);
      } else {
        MatchLeavesOthers(u, id, index + 1, maker);
      }
      FairCompose(s, u, Match(u, id, index + 1), id, maker, index + 1);
    }
  }

  lemma FirstTradeIsFair(s: State, t: State, id: string, maker: string, e: Trade)
    requires Wf(s) && Parties(s, id, maker) && s.orders.Keys == t.orders.Keys
    requires IsBest(s.orders, s.orders[id].symbol, s.orders[id].side.Opposite(), maker)
    requires MakerOf(e, id) == maker && e.price == s.orders[maker].price
    ensures FairTrade(s, t, id, e)
  {
    var o := s.orders[id];
    forall x | x in s.orders && Resting(s.orders[x], o.symbol, o.side.Opposite())
      ensures !Outranks(s.orders[x], s.orders[maker])
    {
      if x != maker { assert Outranks(s.orders[maker], s.orders[x]); }
    }
  }

  lemma RankedRun(s: State, u: State, t: State, id: string, maker: string)
    requires FairRun(u, t, id) && |u.trades| == |s.trades| + 1 && s.trades <= u.trades
      && MakerOf(u.trades[|s.trades|], id) == maker
    requires u.orders.Keys == s.orders.Keys && maker in s.orders && id in s.orders
    requires forall x :: x in s.orders && x != id && x != maker ==> u.orders[x] == s.orders[x]
    requires forall k :: |u.trades| <= k < |t.trades| ==>
               FairTrade(s, t, id, t.trades[k]) && Outranks(s.orders[maker], s.orders[MakerOf(t.trades[k], id)])
    ensures forall j, k :: |s.trades| <= j < k < |t.trades| ==>
              Outranks(s.orders[MakerOf(t.trades[j], id)], s.orders[MakerOf(t.trades[k], id)])
  {
    assert t.trades[|s.trades|] == u.trades[|s.trades|];
    forall j, k | |u.trades| <= j < k < |t.trades|
      ensures Outranks(s.orders[MakerOf(t.trades[j], id)], s.orders[MakerOf(t.trades[k], id)])
    {
      assert FairTrade(s, t, id, t.trades[j]) && FairTrade(s, t, id, t.trades[k]);
      assert Outranks(u.orders[MakerOf(t.trades[j], id)], u.orders[MakerOf(t.trades[k], id)]);
    }
  }

  /** An order as it was, or with more of it executed and not cancelled. */
  predicate OnlyExecuted(before: Order, after: Order) {
    after == before || (after.filled > before.filled && !after.status.Canceled?)
  }

  lemma TurnOnlyExecutes(s: State, id: string, index: nat, x: string)
    requires Wf(s) && Working(s, id) && x in s.orders && x != id
    ensures OnlyExecuted(s.orders[x], MatchTurn(s, id, index).state.orders[x])
  {
    hide Settle;
    var o := s.orders[id];
    var best := Best(s, o.symbol, o.side.Opposite());
    if o.remaining > 0 && best.Some? && !Beyond(o, s.orders[best.value]) && s.orders[best.value].owner != o.owner {
      PickedMakerTrades(s, id);
      assert OrderOk(s.settings, s.lastSeq, id, o) && OrderOk(s.settings, s.lastSeq, best.value, s.orders[best.value]);
    }
  }

  /** Matching changes other orders only by executing more of them; it never cancels one. */
  lemma {:induction false} MatchOnlyExecutes(s: State, id: string, index: nat, x: string)
    requires Wf(s) && Working(s, id) && x in s.orders && x != id
    ensures OnlyExecuted(s.orders[x], Match(s, id, index).orders[x])
    decreases s.orders[id].remaining
  {
    hide MatchTurn, Wf;
    var turn := MatchTurn(s, id, index);
    TurnKeepsWf(s, id, index);
    TurnOnlyExecutes(s, id, index, x);
    if turn.more { MatchOnlyExecutes(turn.state, id, index + 1, x); }
  }

  /** An order of the same owner, within the limit. */
  predicate OwnInReach(o: Order, m: Order) { m.owner == o.owner && !Beyond(o, m) }

  /** Why the loop stopped: the order is spent; or it still works and nothing opposite is in reach; or it was
      cancelled because the best order in reach is its owner's own, which still rests untouched. No other order is
      cancelled. */
  lemma {:induction false} MatchStopsForAReason(s: State, id: string, index: nat)
    requires Wf(s) && Working(s, id)
    ensures var t := Match(s, id, index); var o := t.orders[id];
      || o.remaining == 0
      || (o.Active() && forall x :: x in t.orders && Resting(t.orders[x], o.symbol, o.side.Opposite()) ==>
           Beyond(o, t.orders[x]))
      || (o.status.Canceled? && o.reason.SelfTradePrevention?
          && exists m :: IsBest(t.orders, o.symbol, o.side.Opposite(), m) && OwnInReach(o, t.orders[m]))
    ensures forall x :: x in s.orders && x != id ==> OnlyExecuted(s.orders[x], Match(s, id, index).orders[x])
    decreases s.orders[id].remaining
  {
    forall x | x in s.orders && x != id ensures OnlyExecuted(s.orders[x], Match(s, id, index).orders[x]) {
      MatchOnlyExecutes(s, id, index, x);
    }
    var o := s.orders[id];
    assert OrderOk(s.settings, s.lastSeq, id, o);
    var best := Best(s, o.symbol, o.side.Opposite());
    if o.remaining > 0 {
      if best.None? || Beyond(o, s.orders[best.value]) {
        BeyondBestIsBeyondAll(s, id);
      } else {
        PickedMakerTrades(s, id);
        if s.orders[best.value].owner == o.owner {
          ScanFindsBest(s, o.symbol, o.side.Opposite());
          var t := Release(s, id, SelfTradePrevention);
          assert IsBest(t.orders, o.symbol, o.side.Opposite(), best.value);
        } else {
          FillKeepsWf(s, id, best.value, index + 1);
          MatchStopsForAReason(Fill(s, id, best.value, index + 1), id, index + 1);
        }
      }
    }
  }
}
