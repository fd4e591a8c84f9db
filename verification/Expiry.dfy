/** DAY expiry: which orders it closes, and that nothing of an earlier day is ever left working. */
module Expiry {
  import opened Wrappers
  import opened Exchange
  import opened Ledger
  import opened Evolution

  /** What expiry makes of one order. */
  function Expired(o: Order, day: int): Order {
    if o.Active() && o.day != day then o.(status := Canceled, reason := DayExpired) else o
  }

  /** Expiry goes through the first `n` orders: of those it closes exactly the active ones of other days, and it
      changes no other order. */
  lemma {:induction false} ExpireCloses(s: State, n: nat, day: int, id: string)
    requires n <= |s.ids| && id in s.orders
    ensures id in Expire(s, n, day).orders
    ensures Expire(s, n, day).orders[id] == if id in s.ids[..n] then Expired(s.orders[id], day) else s.orders[id]
  {
    if n > 0 {
      ExpireCloses(s, n - 1, day, id);
      assert s.ids[..n] == s.ids[..n - 1] + [s.ids[n - 1]];
    }
  }

  function Owned(b: Balance): int { b.available + b.held }

  /** What a line owns is not touched: expiry only moves it from held to available. */
  lemma {:induction false} ExpireKeepsWorth(s: State, n: nat, day: int, h: Holding)
    requires n <= |s.ids| && h in s.accounts
    ensures h in Expire(s, n, day).accounts
    ensures Owned(Expire(s, n, day).accounts[h]) == Owned(s.accounts[h])
  {
    if n > 0 { ExpireKeepsWorth(s, n - 1, day, h); }
  }

  /** DAY expiry closes exactly the active orders of other days; no order is added, lost or changed otherwise, no trade
      is made, and every line still owns what it owned. */
  lemma DayExpiryIsExact(s: State, day: int)
    requires Wf(s)
    ensures var t := Expire(s, |s.ids|, day);
      && t.orders.Keys == s.orders.Keys && t.trades == s.trades
      && (forall id :: id in s.orders ==> t.orders[id] == Expired(s.orders[id], day))
      && (forall h :: h in s.accounts ==> h in t.accounts && Owned(t.accounts[h]) == Owned(s.accounts[h]))
  {
    hide Expire;
    ExpireKeepsFrame(s, |s.ids|, day);
    ExpireEvolves(s, |s.ids|, day, 0);
    assert s.ids[..|s.ids|] == s.ids;
    forall id | id in s.orders ensures Expire(s, |s.ids|, day).orders[id] == Expired(s.orders[id], day) {
      ExpireCloses(s, |s.ids|, day, id);
    }
    forall h | h in s.accounts
      ensures h in Expire(s, |s.ids|, day).accounts
      ensures Owned(Expire(s, |s.ids|, day).accounts[h]) == Owned(s.accounts[h])
    {
      ExpireKeepsWorth(s, |s.ids|, day, h);
    }
  }

  /** No order of another day is working. */
  ghost predicate OnlyOf(orders: map<string, Order>, day: int) {
    forall id :: id in orders && orders[id].Active() ==> orders[id].day == day
  }

  lemma AdvancingKeepsDay(before: map<string, Order>, after: map<string, Order>, day: int)
    requires OnlyOf(before, day) && after.Keys == before.Keys
    requires forall id :: id in before ==> Advances(before[id], after[id])
    ensures OnlyOf(after, day)
  {
    forall id | id in after && after[id].Active() ensures after[id].day == day {
      assert Advances(before[id], after[id]);
    }
  }

  lemma OpenedIsOfToday(s: State, c: Command)
    requires Wf(s) && Admissible(s, c)
    ensures OnlyOf(Opened(s, c).orders, DayOf(c.timestamp))
  {
    hide Expire, Wf;
    CursorKeepsWf(s, c);
    DayExpiryIsExact(s.(lastSeq := c.seqno, lastTimestamp := c.timestamp), DayOf(c.timestamp));
  }

  /** After every command, rejected ones included, the orders still working are of that command's day. */
  lemma ReduceLeavesToday(s: State, c: Command)
    requires Wf(s) && Reduce(s, c).Some?
    ensures OnlyOf(Reduce(s, c).value.orders, DayOf(c.timestamp))
  {
    hide Wf, Match, Opened, Evolves, OnlyOf, Admissible;
    var t := Opened(s, c);
    AdmissibleFields(s, c);
    OpenedIsWf(s, c);
    OpenedIsOfToday(s, c);
    if c.body.Cancel? {
      DoCancelEvolves(t, c);
      EvolvingOrders(t, DoCancel(t, c), c.seqno, 0);
      CancelKeepsKeys(t, c);
      AdvancingKeepsDay(t.orders, DoCancel(t, c).orders, DayOf(c.timestamp));
    } else if Refusal(t, c).None? {
      var u := Enter(t, c);
      var id := c.body.orderId;
      EnterKeepsWf(t, c);
      EnterLeavesToday(t, c);
      MatchEvolves(u, id, 0);
      EvolvingOrders(u, Match(u, id, 0), u.orders[id].seqno, 0);
      AdvancingKeepsDay(u.orders, Match(u, id, 0).orders, DayOf(c.timestamp));
    }
  }

  lemma AdmissibleFields(s: State, c: Command)
    requires Reduce(s, c).Some?
    ensures Admissible(s, c) && c.owner in s.settings.owners
    ensures c.body.New? ==> c.body.price > 0 && c.body.quantity > 0
  {
  }

  lemma EvolvingOrders(s: State, t: State, seqno: int, index: nat)
    requires Evolves(s, t, seqno, index)
    ensures forall id :: id in s.orders ==> id in t.orders && Advances(s.orders[id], t.orders[id])
  {
  }

  lemma CancelKeepsKeys(t: State, c: Command)
    ensures DoCancel(t, c).orders.Keys == t.orders.Keys
  {
  }

  lemma EnterLeavesToday(t: State, c: Command)
    requires c.body.New? && OnlyOf(t.orders, DayOf(c.timestamp))
    ensures OnlyOf(Enter(t, c).orders, DayOf(c.timestamp))
  {
  }

  /** In every reachable state the orders still working are of the day of the last command. */
  lemma NothingOutlivesItsDay(rules: Settings, commands: seq<Command>)
    requires SettingsOk(rules) && Replay(rules, commands).Some?
    ensures commands != [] ==>
      OnlyOf(Replay(rules, commands).value.orders, DayOf(commands[|commands| - 1].timestamp))
  {
    if commands != [] {
      var front := commands[..|commands| - 1];
      ReplayIsSound(rules, front);
      ReduceLeavesToday(Replay(rules, front).value, commands[|commands| - 1]);
    }
  }
}
