/** The live ring: membership and weight changes, each publishing one complete replacement topology. */
module HashRing {
  import opened Wrappers
  import opened Sorting
  import opened Ring
  import Texts

  /** Virtual-node count of every physical node. */
  type Weights = map<string, nat>

  function Label(node: string, index: nat): string { node + "#" + Texts.Decimal(index) }

  /** The entry set a membership stands for: one entry per virtual index, wherever the hash puts it. */
  ghost predicate Belongs(h: HashFunction, w: Weights, e: Entry) {
    e.node in w && e.index < w[e.node] && h(Label(e.node, e.index)) == Some(e.position)
  }

  ghost predicate Hashable(h: HashFunction, node: string, start: nat, end: nat) {
    forall i :: start <= i < end ==> h(Label(node, i)).Some?
  }

  ghost predicate WellWeighted(h: HashFunction, w: Weights) {
    forall n :: n in w ==> n != "" && w[n] > 0 && Hashable(h, n, 0, w[n])
  }

  /** `s` is the topology of membership `w`: its entries are exactly the ones `w` stands for, in ring order. */
  ghost predicate Topology(h: HashFunction, w: Weights, s: RingState) {
    && WellWeighted(h, w)
    && Strictly(Precedes, s.entries)
    && (forall e :: e in s.entries <==> Belongs(h, w, e))
    && s.positions == Positions(s.entries)
    && Distinct(s.nodes) && (forall n :: n in s.nodes <==> n in w)
  }

  /** Membership alone fixes the entry tuple, so routing cannot depend on how the membership was reached. */
  lemma MembershipFixesEntries(h: HashFunction, w: Weights, s: RingState, t: RingState)
    requires Topology(h, w, s) && Topology(h, w, t)
    ensures s.entries == t.entries
    ensures forall p :: Owner(s.entries, p) == Owner(t.entries, p)
  {
    PrecedesIsStrict();
    forall e ensures e in s.entries <==> e in t.entries { assert Belongs(h, w, e) <==> e in s.entries; }
    StrictOrderIsUnique(Precedes, s.entries, t.entries);
  }

  /** A topology lists exactly the servers that have entries. */
  lemma TopologyListsNodes(h: HashFunction, w: Weights, s: RingState)
    requires Topology(h, w, s)
    ensures NodesListed(s)
  {
    forall n | n in s.nodes ensures exists e :: e in s.entries && e.node == n {
      assert Hashable(h, n, 0, w[n]) && h(Label(n, 0)).Some?;
      var e := Entry(h(Label(n, 0)).value, n, 0);
      assert Belongs(h, w, e);
    }
    forall n, e | e in s.entries && e.node == n ensures n in s.nodes { assert Belongs(h, w, e); }
  }

  /** Raising one weight (from nothing, for an addition) moves positions only onto that node;
      lowering it, or removing the node, moves only positions it owned. */
  lemma WeightChangeIsLocal(h: HashFunction, w: Weights, w': Weights, s: RingState, t: RingState, node: string, p: int)
    requires Topology(h, w, s) && Topology(h, w', t)
    requires w - {node} == w' - {node}
    requires node in w ==> node in w' && w[node] <= w'[node]
    ensures Owner(s.entries, p) != Owner(t.entries, p) ==> Owner(t.entries, p) == Some(node)
  {
    forall n | n != node ensures (n in w <==> n in w') && (n in w ==> w[n] == w'[n]) {
      assert n in w <==> n in w - {node};
      assert n in w' <==> n in w' - {node};
      if n in w { assert (w - {node})[n] == (w' - {node})[n]; }
    }
    forall e | e in s.entries ensures e in t.entries { assert Belongs(h, w, e) && Belongs(h, w', e); }
    forall e | e in t.entries && e !in s.entries ensures e.node == node {
      assert Belongs(h, w', e) && !Belongs(h, w, e);
    }
    Locality(s.entries, t.entries, p);
    assert forall e :: IsOwner(t.entries, p, e) ==> e in t.entries;
  }

  // ---------------------------------------------------------------- building blocks

  /** `_entries`: hash the labels `start..end` in order, failing at the first bad hash. */
  function MakeEntries(h: HashFunction, node: string, start: nat, end: nat): (r: Option<seq<Entry>>)
    ensures r.Some? <==> Hashable(h, node, start, end)
    ensures r.Some? ==> forall i :: 0 <= i < |r.value| ==>
              && r.value[i].node == node && r.value[i].index == start + i
                 && Some(r.value[i].position) == h(Label(node, start + i))
    ensures r.Some? ==> |r.value| == if start <= end then end - start else 0
    decreases end - start
  {
    if start >= end then Some([])
    else match h(Label(node, start)) {
      case None => assert !Hashable(h, node, start, end); None
      case Some(p) =>
        var rest := MakeEntries(h, node, start + 1, end);
        assert Hashable(h, node, start, end) <==> Hashable(h, node, start + 1, end) by {
          if Hashable(h, node, start + 1, end) {
            forall i | start <= i < end ensures h(Label(node, i)).Some? {
              if i > start { assert h(Label(node, i)).Some?; }
            }
          }
          if Hashable(h, node, start, end) {
            forall i | start + 1 <= i < end ensures h(Label(node, i)).Some? { }
          }
        }
        if rest.None? then None else Some([Entry(p, node, start)] + rest.value)
    }
  }

  /** The entries other than `node`'s virtual indices from `count` on, order kept. */
  function Retain(es: seq<Entry>, node: string, count: nat): (r: seq<Entry>)
    ensures forall e :: e in r <==> e in es && (e.node != node || e.index < count)
  {
    if es == [] then []
    else
      var rest := Retain(es[1..], node, count);
      assert es == [es[0]] + es[1..];
      if es[0].node != node || es[0].index < count then [es[0]] + rest else rest
  }

  /** `node`'s own entries, order kept. */
  function Own(es: seq<Entry>, node: string): (r: seq<Entry>)
    ensures forall e :: e in r <==> e in es && e.node == node
  {
    if es == [] then []
    else
      var rest := Own(es[1..], node);
      assert es == [es[0]] + es[1..];
      if es[0].node == node then [es[0]] + rest else rest
  }

  function Without(nodes: seq<string>, node: string): (r: seq<string>)
    ensures forall n :: n in r <==> n in nodes && n != node
    ensures Distinct(nodes) ==> Distinct(r)
  {
    if nodes == [] then []
    else
      var rest := Without(nodes[1..], node);
      assert nodes == [nodes[0]] + nodes[1..];
      assert Distinct(nodes) ==> nodes[0] !in nodes[1..] && Distinct(nodes[1..]);
      if nodes[0] != node then [nodes[0]] + rest else rest
  }

  lemma {:induction false} RetainKeepsOrder(es: seq<Entry>, node: string, count: nat)
    requires Strictly(Precedes, es)
    ensures Strictly(Precedes, Retain(es, node, count))
  {
    if es != [] {
      RetainKeepsOrder(es[1..], node, count);
      var rest := Retain(es[1..], node, count);
      forall e | e in rest ensures Precedes(es[0], e) { assert e in es[1..]; }
    }
  }

  lemma {:induction false} OwnKeepsOrder(es: seq<Entry>, node: string)
    requires Strictly(Precedes, es)
    ensures Strictly(Precedes, Own(es, node))
  {
    if es != [] {
      OwnKeepsOrder(es[1..], node);
      var rest := Own(es[1..], node);
      forall e | e in rest ensures Precedes(es[0], e) { assert e in es[1..]; }
    }
  }

  lemma StrictIsDistinct(es: seq<Entry>)
    requires Strictly(Precedes, es)
    ensures Distinct(es)
  {
    forall i, j | 0 <= i < j < |es| ensures es[i] != es[j] { PrecedesTotal(es[i], es[j]); }
  }

  predicate ByIndex(a: Entry, b: Entry) { a.index < b.index }

  /** A node of weight `k` owns exactly one entry per index below `k`; sorted by index they list its positions. */
  lemma OwnByIndex(h: HashFunction, w: Weights, s: RingState, node: string)
    requires Topology(h, w, s) && node in w
    ensures |Own(s.entries, node)| == w[node]
    ensures Some(Sort(ByIndex, Own(s.entries, node))) == MakeEntries(h, node, 0, w[node])
  {
    var own := Own(s.entries, node);
    assert Hashable(h, node, 0, w[node]);
    var ideal := MakeEntries(h, node, 0, w[node]).value;
    OwnKeepsOrder(s.entries, node);
    StrictIsDistinct(own);
    forall x, y | x in own && y in own ensures x == y || ByIndex(x, y) || ByIndex(y, x) {
      assert Belongs(h, w, x) && Belongs(h, w, y);
    }
    SortIsStrict(ByIndex, own);
    forall e ensures e in Sort(ByIndex, own) <==> e in ideal {
      assert e in own <==> Belongs(h, w, e) && e.node == node;
      if Belongs(h, w, e) && e.node == node { assert ideal[e.index] == e; }
    }
    StrictOrderIsUnique(ByIndex, Sort(ByIndex, own), ideal);
  }

  /** Entries freshly made for indices `start..count` of one node, sorted among themselves. */
  lemma AddedRun(h: HashFunction, node: string, start: nat, count: nat)
    requires start <= count && Hashable(h, node, start, count)
    ensures var run := Sort(Precedes, MakeEntries(h, node, start, count).value);
      && |run| == count - start && Distinct(run)
      && forall e ::
           e in run <==> e.node == node && start <= e.index < count && h(Label(node, e.index)) == Some(e.position)
  {
    var added := MakeEntries(h, node, start, count).value;
    SortAll(added);
    StrictIsDistinct(Sort(Precedes, added));
    forall e
      ensures e in added <==> e.node == node && start <= e.index < count && h(Label(node, e.index)) == Some(e.position)
    {
      if e.node == node && start <= e.index < count && h(Label(node, e.index)) == Some(e.position) {
        assert added[e.index - start] == e;
      }
    }
  }

  lemma SortAll(es: seq<Entry>)
    requires Distinct(es)
    ensures Strictly(Precedes, Sort(Precedes, es)) && |Sort(Precedes, es)| == |es|
    ensures forall e :: e in Sort(Precedes, es) <==> e in es
  {
    PrecedesIsStrict();
    forall x, y | x in es && y in es ensures x == y || Precedes(x, y) || Precedes(y, x) { PrecedesTotal(x, y); }
    SortIsStrict(Precedes, es);
  }

  lemma OldAndAddedDiffer(h: HashFunction, w: Weights, before: seq<Entry>, run: seq<Entry>, node: string, start: nat)
    requires forall e :: e in before ==> Belongs(h, w, e)
    requires forall e :: e in run ==> e.node == node && start <= e.index
    requires start == if node in w then w[node] else 0
    ensures forall e :: e in before ==> e !in run
  {
  }

  lemma MergedMembers(h: HashFunction, w: Weights, es: seq<Entry>, node: string, start: nat, count: nat)
    requires Strictly(Precedes, es) && forall e :: e in es <==> Belongs(h, w, e)
    requires start < count && Hashable(h, node, start, count) && start == if node in w then w[node] else 0
    ensures var merged := Sort(Precedes, es + Sort(Precedes, MakeEntries(h, node, start, count).value));
      && Strictly(Precedes, merged) && |merged| == |es| + count - start
      && forall e :: e in merged <==> Belongs(h, w[node := count], e)
  {
    var run := Sort(Precedes, MakeEntries(h, node, start, count).value);
    AddedRun(h, node, start, count);
    StrictIsDistinct(es);
    OldAndAddedDiffer(h, w, es, run, node, start);
    DistinctJoin(es, run);
    SortAll(es + run);
    forall e ensures e in es || e in run <==> Belongs(h, w[node := count], e) {
      assert e in es <==> Belongs(h, w, e);
    }
  }

  /** Sorting old and added entries together yields the topology of the enlarged membership. */
  lemma MergeIsTopology(h: HashFunction, w: Weights, s: RingState, node: string, start: nat, count: nat,
      nodes: seq<string>)
    requires Topology(h, w, s) && node != "" && start < count && Hashable(h, node, start, count)
    requires if node in w then start == w[node] && nodes == s.nodes else start == 0 && nodes == s.nodes + [node]
    ensures var merged := Sort(Precedes, s.entries + Sort(Precedes, MakeEntries(h, node, start, count).value));
      |merged| == |s.entries| + count - start && Topology(h, w[node := count], FromOrdered(merged, nodes))
  {
    MergedMembers(h, w, s.entries, node, start, count);
    GrownIsWellWeighted(h, w, node, start, count);
  }

  lemma GrownIsWellWeighted(h: HashFunction, w: Weights, node: string, start: nat, count: nat)
    requires WellWeighted(h, w) && node != "" && start < count && Hashable(h, node, start, count)
    requires start == if node in w then w[node] else 0
    ensures WellWeighted(h, w[node := count])
  {
    forall i | 0 <= i < count ensures h(Label(node, i)).Some? {
      if i < start { assert Hashable(h, node, 0, w[node]); }
    }
    forall n | n in w && n != node ensures Hashable(h, n, 0, w[n]) { }
  }

  lemma ShrinkIsTopology(h: HashFunction, w: Weights, s: RingState, node: string, count: nat)
    requires Topology(h, w, s) && node in w && 0 < count < w[node]
    ensures Topology(h, w[node := count], FromOrdered(Retain(s.entries, node, count), s.nodes))
  {
    RetainKeepsOrder(s.entries, node, count);
    var w' := w[node := count];
    forall e ensures e in Retain(s.entries, node, count) <==> Belongs(h, w', e) {
      assert e in s.entries <==> Belongs(h, w, e);
    }
    assert Hashable(h, node, 0, count) by { assert Hashable(h, node, 0, w[node]); }
  }

  lemma RemovalIsTopology(h: HashFunction, w: Weights, s: RingState, node: string)
    requires Topology(h, w, s) && node in w
    ensures Topology(h, w - {node}, FromOrdered(Retain(s.entries, node, 0), Without(s.nodes, node)))
  {
    RetainKeepsOrder(s.entries, node, 0);
    forall e ensures e in Retain(s.entries, node, 0) <==> Belongs(h, w - {node}, e) {
      assert e in s.entries <==> Belongs(h, w, e);
    }
  }

  /** `_RingState.from_ordered`. */
  function FromOrdered(entries: seq<Entry>, nodes: seq<string>): RingState {
    RingState(entries, Positions(entries), nodes)
  }

  // ---------------------------------------------------------------- the class

  class ConsistentHashRing {
    const hash: HashFunction
    const defaultCount: nat
    const capacity: nat
    var state: RingState
    ghost var weights: Weights

    ghost predicate Valid()
      reads this
    {
      Topology(hash, weights, state) && |state.entries| <= capacity && 0 < defaultCount <= capacity
    }

    /** Publish a first topology, built by `Create`. */
    constructor Publish(hash: HashFunction, defaultCount: nat, capacity: nat, state: RingState, ghost weights: Weights)
      requires Topology(hash, weights, state) && |state.entries| <= capacity && 0 < defaultCount <= capacity
      ensures Valid() && this.state == state && this.weights == weights
      ensures this.hash == hash && this.defaultCount == defaultCount && this.capacity == capacity
    {
      this.hash, this.defaultCount, this.capacity := hash, defaultCount, capacity;
      this.state, this.weights := state, weights;
    }

    /** Why `add_node` refuses, in the order the source checks; None when it goes ahead. */
    ghost function AddRefusal(node: string, count: int): Option<RingError>
      reads this
    {
      if node == "" then Some(InvalidNode)
      else if count <= 0 then Some(InvalidCount)
      else if node in weights then Some(DuplicateNode)
      else if |state.entries| + count > capacity then Some(CapacityExceeded)
      else if !Hashable(hash, node, 0, count) then Some(HashFailed)
      else None
    }

    method AddNode(node: string, requested: Option<int>) returns (r: Result<seq<int>, RingError>)
      requires Valid()
      modifies this
      ensures Valid()
      ensures var count := if requested.None? then defaultCount else requested.value;
              match old(AddRefusal(node, count))
              case Some(e) => r == Err(e) && state == old(state) && weights == old(weights)
              case None =>
                && weights == old(weights)[node := count] && state.nodes == old(state.nodes) + [node]
                && r.Ok? && |r.value| == count
                && forall i :: 0 <= i < count ==> Some(r.value[i]) == hash(Label(node, i))
    {
      if node == "" { return Err(InvalidNode); }
      var count := if requested.None? then defaultCount else requested.value;
      if count <= 0 { return Err(InvalidCount); }
      if node in state.nodes { return Err(DuplicateNode); }
      if |state.entries| + count > capacity { return Err(CapacityExceeded); }
      var added := MakeEntries(hash, node, 0, count);
      if added.None? { return Err(HashFailed); }
      MergeIsTopology(hash, weights, state, node, 0, count, state.nodes + [node]);
      state := FromOrdered(Sort(Precedes, state.entries + Sort(Precedes, added.value)), state.nodes + [node]);
      weights := weights[node := count];
      r := Ok(Positions(added.value));
    }

    method RemoveNode(node: string) returns (r: Result<seq<int>, RingError>)
      requires Valid()
      modifies this
      ensures Valid()
      ensures r.Err? <==> node == "" || node !in old(weights)
      ensures r.Err? ==> r.error == if node == "" then InvalidNode else UnknownNode
      ensures r.Err? ==> state == old(state) && weights == old(weights)
      ensures r.Ok? ==> weights == old(weights) - {node} && state.nodes == Without(old(state.nodes), node)
      ensures r.Ok? ==> |r.value| == old(weights)[node]
                        && forall i :: 0 <= i < |r.value| ==> Some(r.value[i]) == hash(Label(node, i))
    {
      if node == "" { return Err(InvalidNode); }
      if node !in state.nodes { return Err(UnknownNode); }
      var removed := Sort(ByIndex, Own(state.entries, node));
      OwnByIndex(hash, weights, state, node);
      assert Hashable(hash, node, 0, weights[node]);
      var retained := Retain(state.entries, node, 0);
      RemovalIsTopology(hash, weights, state, node);
      RetainShrinks(state.entries, node, 0);
      state := FromOrdered(retained, Without(state.nodes, node));
      weights := weights - {node};
      r := Ok(Positions(removed));
    }

    /** Why `set_virtual_nodes` refuses, in the order the source checks. */
    ghost function WeightRefusal(node: string, count: int): Option<RingError>
      reads this
    {
      if node == "" then Some(InvalidNode)
      else if count <= 0 then Some(InvalidCount)
      else if node !in weights then Some(UnknownNode)
      else if |state.entries| - weights[node] + count > capacity then Some(CapacityExceeded)
      else if !Hashable(hash, node, weights[node], count) then Some(HashFailed)
      else None
    }

    method SetVirtualNodes(node: string, count: int) returns (refused: Option<RingError>)
      requires Valid()
      modifies this
      ensures Valid()
      ensures refused == old(WeightRefusal(node, count))
      ensures refused.Some? ==> state == old(state) && weights == old(weights)
      ensures refused.None? ==> weights == old(weights)[node := count] && state.nodes == old(state.nodes)
      ensures refused.None? && old(weights)[node] == count ==> state == old(state)
    {
      if node == "" { return Some(InvalidNode); }
      if count <= 0 { return Some(InvalidCount); }
      if node !in state.nodes { return Some(UnknownNode); }
      var oldCount := |Own(state.entries, node)|;
      OwnByIndex(hash, weights, state, node);
      if |state.entries| - oldCount + count > capacity { return Some(CapacityExceeded); }
      if oldCount == count {
        assert weights == weights[node := count];
        return None;
      }
      if count > oldCount {
        var added := MakeEntries(hash, node, oldCount, count);
        if added.None? { return Some(HashFailed); }
        MergeIsTopology(hash, weights, state, node, oldCount, count, state.nodes);
        state := FromOrdered(Sort(Precedes, state.entries + Sort(Precedes, added.value)), state.nodes);
      } else {
        ShrinkIsTopology(hash, weights, state, node, count);
        RetainShrinks(state.entries, node, count);
        state := FromOrdered(Retain(state.entries, node, count), state.nodes);
      }
      weights := weights[node := count];
      refused := None;
    }

    /** `get_node`: the owner of the key on the current topology. */
    method GetNode(key: string) returns (r: Result<string, RingError>)
      requires Valid()
      ensures r == if state.entries == [] then Err(EmptyRing)
                   else if hash(key).None? then Err(HashFailed)
                   else Ok(Owner(state.entries, hash(key).value).value)
      ensures r.Ok? ==> r.value in state.nodes
    {
      if state.entries == [] { return Err(EmptyRing); }
      var p := hash(key);
      if p.None? { return Err(HashFailed); }
      OrderedPositionsAscend(state.entries);
      var cut := BisectRight(state.positions, p.value);
      r := Ok(state.entries[cut % |state.entries|].node);
      assert Belongs(hash, weights, state.entries[Start(state.entries, p.value)]);
    }

    /** `get_nodes` on the live ring: as many distinct members as asked, or all, in the order they are met. */
    method GetNodes(key: string, count: int) returns (r: Result<seq<string>, RingError>, ghost ws: seq<Entry>)
      requires Valid()
      ensures r.Err? <==> count < 0 || (count > 0 && (state.entries == [] || hash(key).None?))
      ensures r.Err? ==>
        r.error == if count < 0 then InvalidCount else if state.entries == [] then EmptyRing else HashFailed
      ensures r.Ok? && count == 0 ==> r.value == []
      ensures r.Ok? && count > 0 ==>
        && IsPreferenceList(state.entries, hash(key).value, ws) && r.value == Names(ws)
        && |r.value| == (if count <= |weights| then count else |weights|)
        && (forall n :: n in r.value ==> n in weights)
        && |r.value| > 0 && Some(r.value[0]) == Owner(state.entries, hash(key).value)
    {
      hide IsPreferenceList, Belongs, WellWeighted, Start, Cut;
      TopologyListsNodes(hash, weights, state);
      DistinctSize(state.nodes, weights.Keys);
      r, ws := Ring.GetNodes(state, hash(key), count);
      if r.Ok? && count > 0 { PreferredAreMembers(hash, weights, state, hash(key).value, ws); }
    }
  }

  lemma PreferredAreMembers(h: HashFunction, w: Weights, s: RingState, p: int, ws: seq<Entry>)
    requires Topology(h, w, s) && IsPreferenceList(s.entries, p, ws)
    ensures forall n :: n in Names(ws) ==> n in w
  {
    forall n | n in Names(ws) ensures n in w {
      var i :| 0 <= i < |ws| && Names(ws)[i] == n;
      assert Belongs(h, w, ws[i]);
    }
  }

  lemma {:induction false} DistinctSize(ns: seq<string>, all: set<string>)
    requires Distinct(ns) && forall n :: n in ns <==> n in all
    ensures |ns| == |all|
  {
    if ns == [] {
      assert all == {};
    } else {
      assert ns == [ns[0]] + ns[1..];
      assert all == all - {ns[0]} + {ns[0]};
      DistinctSize(ns[1..], all - {ns[0]});
    }
  }

  lemma {:induction false} RetainShrinks(es: seq<Entry>, node: string, count: nat)
    ensures |Retain(es, node, count)| <= |es|
  {
    if es != [] { RetainShrinks(es[1..], node, count); }
  }

  /** Every node's entries, hashed node after node, failing at the first bad hash. */
  function BulkEntries(h: HashFunction, nodes: seq<string>, count: nat): (r: Option<seq<Entry>>)
    ensures r.Some? <==> forall n :: n in nodes ==> Hashable(h, n, 0, count)
    ensures r.Some? ==> |r.value| == |nodes| * count
  {
    if nodes == [] then Some([])
    else
      assert nodes == [nodes[0]] + nodes[1..];
      var first := MakeEntries(h, nodes[0], 0, count);
      if first.None? then None
      else
        var rest := BulkEntries(h, nodes[1..], count);
        if rest.None? then None else Some(first.value + rest.value)
  }

  lemma {:induction false} BulkMembers(h: HashFunction, nodes: seq<string>, count: nat)
    requires BulkEntries(h, nodes, count).Some? && Distinct(nodes)
    ensures var all := BulkEntries(h, nodes, count).value;
      && Distinct(all)
      && forall e :: e in all <==> e.node in nodes && e.index < count && h(Label(e.node, e.index)) == Some(e.position)
  {
    if nodes != [] {
      var first, rest := MakeEntries(h, nodes[0], 0, count).value, BulkEntries(h, nodes[1..], count).value;
      assert nodes == [nodes[0]] + nodes[1..] && nodes[0] !in nodes[1..];
      BulkMembers(h, nodes[1..], count);
      forall e
        ensures e in first <==> e.node == nodes[0] && e.index < count && h(Label(e.node, e.index)) == Some(e.position)
      {
        if e.node == nodes[0] && e.index < count && h(Label(e.node, e.index)) == Some(e.position) {
          assert first[e.index] == e;
        }
      }
      DistinctJoin(first, rest);
    }
  }

  /** Bulk construction reaches the topology of its membership in one sort. */
  lemma BulkIsTopology(h: HashFunction, nodes: seq<string>, count: nat)
    requires BulkEntries(h, nodes, count).Some? && Distinct(nodes) && "" !in nodes && count > 0
    ensures Topology(h, map n | n in nodes :: count,
        FromOrdered(Sort(Precedes, BulkEntries(h, nodes, count).value), nodes))
    ensures |Sort(Precedes, BulkEntries(h, nodes, count).value)| == |nodes| * count
  {
    BulkMembers(h, nodes, count);
    SortAll(BulkEntries(h, nodes, count).value);
  }

  /** Why construction refuses, in the order the source checks. */
  ghost function CreateRefusal(nodes: seq<string>, defaultCount: int, h: HashFunction,
      capacity: int): Option<RingError> {
    if defaultCount <= 0 || capacity <= 0 then Some(InvalidCount)
    else if defaultCount > capacity || |nodes| * defaultCount > capacity then Some(CapacityExceeded)
    else if "" in nodes then Some(InvalidNode)
    else if !Distinct(nodes) then Some(DuplicateNode)
    else if exists n :: n in nodes && !Hashable(h, n, 0, defaultCount) then Some(HashFailed)
    else None
  }

  /** `ConsistentHashRing(nodes, ...)`: bulk construction from a sequence of names. */
  method Create(nodes: seq<string>, defaultCount: int, hash: HashFunction, capacity: int)
    returns (r: Result<ConsistentHashRing, RingError>)
    ensures match CreateRefusal(nodes, defaultCount, hash, capacity)
            case Some(e) => r == Err(e)
            case None =>
              && r.Ok? && fresh(r.value) && r.value.Valid() && r.value.state.nodes == nodes && r.value.hash == hash
              && r.value.weights == map n | n in nodes :: defaultCount
  {
    if defaultCount <= 0 || capacity <= 0 { return Err(InvalidCount); }
    if defaultCount > capacity || |nodes| * defaultCount > capacity { return Err(CapacityExceeded); }
    if "" in nodes { return Err(InvalidNode); }
    var distinct := AllDistinct(nodes);
    if !distinct { return Err(DuplicateNode); }
    var entries := BulkEntries(hash, nodes, defaultCount);
    if entries.None? { return Err(HashFailed); }
    BulkIsTopology(hash, nodes, defaultCount);
    var state := FromOrdered(Sort(Precedes, entries.value), nodes);
    var ring := new ConsistentHashRing.Publish(hash, defaultCount, capacity, state, map n | n in nodes :: defaultCount);
    r := Ok(ring);
  }

  /** `len(set(names)) == len(names)`. */
  method AllDistinct(nodes: seq<string>) returns (yes: bool)
    ensures yes == Distinct(nodes)
  {
    var seen: set<string> := {};
    for i := 0 to |nodes|
      invariant forall n :: n in seen <==> n in nodes[..i]
      invariant Distinct(nodes[..i])
    {
      if nodes[i] in seen {
        var j :| 0 <= j < i && nodes[..i][j] == nodes[i];
        assert nodes[j] == nodes[i];
        return false;
      }
      seen := seen + {nodes[i]};
      assert nodes[..i + 1] == nodes[..i] + [nodes[i]];
    }
    assert nodes[..|nodes|] == nodes;
    yes := true;
  }

  /** The order names are listed in does not change one entry of the bulk-built ring. */
  lemma BulkIgnoresOrder(h: HashFunction, nodes: seq<string>, shuffled: seq<string>, count: nat)
    requires BulkEntries(h, nodes, count).Some? && Distinct(nodes) && "" !in nodes && count > 0
    requires multiset(nodes) == multiset(shuffled)
    ensures BulkEntries(h, shuffled, count).Some?
    ensures Sort(Precedes, BulkEntries(h, shuffled, count).value) == Sort(Precedes, BulkEntries(h, nodes, count).value)
  {
    SameMembers(nodes, shuffled);
    DistinctCounts(nodes);
    DistinctCounts(shuffled);
    var w := map n | n in nodes :: count;
    assert w == map n | n in shuffled :: count;
    BulkIsTopology(h, nodes, count);
    BulkIsTopology(h, shuffled, count);
    MembershipFixesEntries(h, w, FromOrdered(Sort(Precedes, BulkEntries(h, nodes, count).value), nodes),
                           FromOrdered(Sort(Precedes, BulkEntries(h, shuffled, count).value), shuffled));
  }

  lemma MemberIsHashable(h: HashFunction, w: Weights, s: RingState, node: string)
    requires Topology(h, w, s) && node in w
    ensures w[node] > 0 && forall start :: 0 <= start ==> Hashable(h, node, start, w[node])
  {
    assert Hashable(h, node, 0, w[node]);
  }

  /** The weight experiment of the chapter: grow a node, then restore its count; every route is restored. */
  method GrowThenRestore(ring: ConsistentHashRing, node: string, count: int) returns (grown: bool)
    requires ring.Valid() && node in ring.weights && node != ""
    modifies ring
    ensures ring.Valid() && ring.state.entries == old(ring.state.entries) && ring.weights == old(ring.weights)
    ensures grown == old(ring.WeightRefusal(node, count)).None?
  {
    hide Topology, Hashable, Own;
    ghost var w, before := ring.weights, ring.state;
    MemberIsHashable(ring.hash, w, before, node);
    var was := |Own(ring.state.entries, node)|;
    OwnByIndex(ring.hash, w, ring.state, node);
    var refused := ring.SetVirtualNodes(node, count);
    grown := refused.None?;
    if grown {
      ghost var mid := ring.weights;
      EntryBudget(ring.hash, w, before, mid, ring.state, node);
      var back := ring.SetVirtualNodes(node, was);
      assert ring.weights == w;
      MembershipFixesEntries(ring.hash, w, before, ring.state);
    }
  }

  /** Changing one weight changes the ring's size by exactly the difference. */
  lemma EntryBudget(h: HashFunction, w: Weights, s: RingState, w': Weights, t: RingState, node: string)
    requires Topology(h, w, s) && Topology(h, w', t) && node in w && node in w' && w' == w[node := w'[node]]
    ensures |t.entries| - w'[node] == |s.entries| - w[node]
  {
    RetainSplits(s.entries, node);
    RetainSplits(t.entries, node);
    OwnByIndex(h, w, s, node);
    OwnByIndex(h, w', t, node);
    RetainKeepsOrder(s.entries, node, 0);
    RetainKeepsOrder(t.entries, node, 0);
    forall e ensures e in Retain(s.entries, node, 0) <==> e in Retain(t.entries, node, 0) {
      assert e in s.entries <==> Belongs(h, w, e);
      assert e in t.entries <==> Belongs(h, w', e);
    }
    PrecedesIsStrict();
    StrictOrderIsUnique(Precedes, Retain(s.entries, node, 0), Retain(t.entries, node, 0));
  }

  lemma {:induction false} RetainSplits(es: seq<Entry>, node: string)
    ensures |Retain(es, node, 0)| + |Own(es, node)| == |es|
  {
    if es != [] { RetainSplits(es[1..], node); }
  }
}
