/** How one command may change orders and trades: identities stay, fills only grow, closed orders stay closed. */
module Evolution {
  import opened Wrappers
  import opened Sorting
  import opened Exchange
  import opened Ledger

  /** `b` is a later version of order `a`. */
  predicate Advances(a: Order, b: Order) {
    && b == a.(remaining := b.remaining, filled := b.filled, status := b.status, reason := b.reason)
    && b.filled >= a.filled && b.remaining <= a.remaining
    && (a.status.Filled? || a.status.Canceled? ==> b == a)
  }

  ghost predicate OrdersEvolve(s: State, t: State, seqno: int) {
    && (forall id :: id in s.orders ==> id in t.orders && Advances(s.orders[id], t.orders[id]))
    && (forall id :: id in t.orders && id !in s.orders ==> t.orders[id].seqno == seqno)
    && s.ids <= t.ids
  }

  /** Trades are only added, numbered from `index` on within the command. */
  ghost predicate TradesEvolve(s: State, t: State, seqno: int, index: nat) {
    && s.trades <= t.trades
    && forall k :: |s.trades| <= k < |t.trades| ==>
       t.trades[k].seqno == seqno && t.trades[k].index == index + k - |s.trades| + 1
  }

  ghost predicate Evolves(s: State, t: State, seqno: int, index: nat) {
    OrdersEvolve(s, t, seqno) && TradesEvolve(s, t, seqno, index) && t.settings == s.settings
  }

  lemma EvolvesTwice(s: State, u: State, t: State, seqno: int, index: nat)
    requires Evolves(s, u, seqno, index) && Evolves(u, t, seqno, index + |u.trades| - |s.trades|)
    ensures Evolves(s, t, seqno, index)
  {
    forall id | id in t.orders && id !in s.orders ensures t.orders[id].seqno == seqno {
      if id in u.orders { assert Advances(u.orders[id], t.orders[id]); }
    }
    forall k | |s.trades| <= k < |t.trades|
      ensures t.trades[k].seqno == seqno && t.trades[k].index == index + k - |s.trades| + 1
    {
      assert k < |u.trades| ==> t.trades[k] == u.trades[k];
    }
  }

  lemma ReleaseEvolves(s: State, id: string, reason: Reason, seqno: int, index: nat)
    requires id in s.orders && s.orders[id].Active()
    ensures Evolves(s, Release(s, id, reason), seqno, index)
  {
  }

  lemma FillEvolves(s: State, id: string, maker: string, index: nat)
    requires Wf(s) && Tradable(s, id, maker)
    ensures Evolves(s, Fill(s, id, maker, index + 1), s.orders[id].seqno, index)
  {
    hide Settle;
    var count := Min(s.orders[id].remaining, s.orders[maker].remaining);
    assert Advances(s.orders[id], Executed(s.orders[id], count))
      && Advances(s.orders[maker], Executed(s.orders[maker], count));
  }

  lemma {:induction false} ExpireEvolves(s: State, n: nat, day: int, seqno: int)
    requires n <= |s.ids|
    ensures Evolves(s, Expire(s, n, day), seqno, 0) && Expire(s, n, day).trades == s.trades
  {
    hide Evolves, Release;
    EvolvesRefl(s, seqno);
    if n > 0 {
      ExpireEvolves(s, n - 1, day, seqno);
      var u := Expire(s, n - 1, day);
      var id := s.ids[n - 1];
      ReleaseKeepsTrades(u, id);
      if id in u.orders && u.orders[id].Active() {
        ReleaseEvolves(u, id, DayExpired, seqno, 0);
        EvolvesTwice(s, u, Release(u, id, DayExpired), seqno, 0);
      }
    }
  }

  lemma ReleaseKeepsTrades(s: State, id: string)
    ensures id in s.orders ==> Release(s, id, DayExpired).trades == s.trades
  {
  }

  lemma EvolvesRefl(s: State, seqno: int)
    ensures Evolves(s, s, seqno, 0)
  {
  }

  lemma TurnEvolves(s: State, id: string, index: nat)
    requires Wf(s) && Working(s, id)
    ensures var turn := MatchTurn(s, id, index);
      && Evolves(s, turn.state, s.orders[id].seqno, index) && turn.state.orders[id].seqno == s.orders[id].seqno
      && (turn.more ==> |turn.state.trades| == |s.trades| + 1)
  {
    hide Wf, OrderOk;
    var o := s.orders[id];
    var best := Best(s, o.symbol, o.side.Opposite());
    if o.remaining > 0 && best.Some? && !Beyond(o, s.orders[best.value]) {
      PickedMakerTrades(s, id);
      if s.orders[best.value].owner == o.owner {
        ReleaseEvolves(s, id, SelfTradePrevention, o.seqno, index);
      } else {
        FillEvolves(s, id, best.value, index);
      }
    }
  }

  lemma {:induction false} MatchEvolves(s: State, id: string, index: nat)
    requires Wf(s) && Working(s, id)
    ensures Evolves(s, Match(s, id, index), s.orders[id].seqno, index)
    decreases s.orders[id].remaining
  {
    hide Wf, Evolves, MatchTurn;
    var turn := MatchTurn(s, id, index);
    TurnKeepsWf(s, id, index);
    TurnEvolves(s, id, index);
    if turn.more {
      MatchEvolves(turn.state, id, index + 1);
      EvolvesTwice(s, turn.state, Match(turn.state, id, index + 1), s.orders[id].seqno, index);
    }
  }

  lemma EnterEvolves(s: State, c: Command)
    requires Wf(s) && c.body.New? && Refusal(s, c).None?
    ensures Evolves(s, Enter(s, c), c.seqno, 0) && Enter(s, c).trades == s.trades
    ensures c.body.orderId in Enter(s, c).orders && Enter(s, c).orders[c.body.orderId].seqno == c.seqno
  {
  }

  lemma DoNewEvolves(t: State, c: Command)
    requires Wf(t) && c.body.New? && c.owner in t.settings.owners && c.body.price > 0 && c.body.quantity > 0
    requires t.lastSeq == c.seqno && forall id :: id in t.orders ==> t.orders[id].seqno < c.seqno
    ensures Evolves(t, DoNew(t, c), c.seqno, 0)
  {
    hide Wf, Enter, Match, OrderOk;
    var id := c.body.orderId;
    if Refusal(t, c).None? {
      EnterKeepsWf(t, c);
      EnterEvolves(t, c);
      MatchEvolves(Enter(t, c), id, 0);
      EvolvesTwice(t, Enter(t, c), Match(Enter(t, c), id, 0), c.seqno, 0);
    }
  }

  lemma DoCancelEvolves(t: State, c: Command)
    ensures Evolves(t, DoCancel(t, c), c.seqno, 0)
  {
    if c.body.orderId in t.orders && t.orders[c.body.orderId].Active() {
      ReleaseEvolves(t, c.body.orderId, UserCancel, c.seqno, 0);
    }
  }

  /** One command: orders keep their identity and only progress, new orders carry the command's sequence number,
      and its trades are numbered 1, 2, ... after all earlier ones. */
  lemma ReduceEvolves(s: State, c: Command)
    requires Wf(s) && Reduce(s, c).Some?
    ensures Evolves(s, Reduce(s, c).value, c.seqno, 0)
  {
    hide Wf, DoNew, DoCancel, Expire;
    var u := s.(lastSeq := c.seqno, lastTimestamp := c.timestamp);
    var t := Opened(s, c);
    OpenedIsWf(s, c);
    ExpireEvolves(u, |u.ids|, DayOf(c.timestamp), c.seqno);
    if c.body.New? { DoNewEvolves(t, c); } else { DoCancelEvolves(t, c); }
    EvolvesTwice(u, t, Reduce(s, c).value, c.seqno, 0);
  }

  /** Trades of a history carry sequence numbers up to its last command. */
  lemma {:induction false} ReplayTradesAreOld(rules: Settings, commands: seq<Command>)
    requires SettingsOk(rules) && Replay(rules, commands).Some?
    ensures var s := Replay(rules, commands).value; forall k :: 0 <= k < |s.trades| ==> s.trades[k].seqno <= s.lastSeq
  {
    if commands != [] {
      var front, c := commands[..|commands| - 1], commands[|commands| - 1];
      var s := Replay(rules, front).value;
      ReplayTradesAreOld(rules, front);
      ReplayIsSound(rules, front);
      ReduceEvolves(s, c);
      var t := Reduce(s, c).value;
      ReduceKeepsWf(s, c);
      forall k | 0 <= k < |t.trades| ensures t.trades[k].seqno <= t.lastSeq {
        if k < |s.trades| { assert t.trades[k] == s.trades[k]; }
      }
    }
  }
}
