/** Topology-only migration planning: changed owner ranges, and the keys that fall into them. */
module Migration {
  import opened Wrappers
  import opened Sorting
  import opened Ring

  /** A retained read view; `hashId` is the identity of the hash callable object. */
  datatype RingSnapshot = RingSnapshot(state: RingState, hash: HashFunction, hashId: nat)

  /** A changed clockwise interval [start, end); equal bounds mean the full ring. */
  datatype AffectedRange = AffectedRange(start: int, end: int, previousOwner: Option<string>,
      newOwner: Option<string>) {
    predicate Contains(p: int) {
      if start < end then start <= p < end else p >= start || p < end
    }
  }

  datatype KeyMigration = KeyMigration(key: string, previousOwner: Option<string>, newOwner: Option<string>)

  datatype MigrationError = DifferentHash

  /** What a consumer of the generator sees: the records yielded, and whether a hash failure ended it. */
  datatype Stream = Stream(records: seq<KeyMigration>, failed: bool)

  ghost predicate WellFormed(s: RingSnapshot) {
    Strictly(Precedes, s.state.entries) && s.state.positions == Positions(s.state.entries)
  }

  // ---------------------------------------------------------------- boundaries

  predicate Less(a: int, b: int) { a < b }

  /** The group keys of `groupby`: one of each run of equal neighbours. */
  function Groups(s: seq<int>): (g: seq<int>)
    ensures forall x :: x in g <==> x in s
  {
    if s == [] then []
    else
      assert s == [s[0]] + s[1..];
      if |s| > 1 && s[0] == s[1] then Groups(s[1..]) else [s[0]] + Groups(s[1..])
  }

  lemma {:induction false} GroupsIncrease(s: seq<int>)
    requires Ordered(Less, s)
    ensures Increasing(Groups(s))
  {
    if s != [] {
      GroupsIncrease(s[1..]);
      if |s| == 1 || s[0] != s[1] {
        var g := Groups(s[1..]);
        forall k | 0 <= k < |g| ensures s[0] < g[k] {
          assert g[k] in g;
          var m :| 0 <= m < |s[1..]| && s[1..][m] == g[k];
          assert !Less(s[1], s[0]);
          assert m > 0 ==> !Less(s[m + 1], s[1]);
        }
      }
    }
  }

  /** Every position of either topology once, ascending. */
  function Boundaries(a: seq<int>, b: seq<int>): seq<int> {
    Groups(Sort(Less, a + b))
  }

  lemma BoundariesCover(a: seq<int>, b: seq<int>)
    ensures Increasing(Boundaries(a, b))
    ensures forall x :: x in Boundaries(a, b) <==> x in a || x in b
  {
    SortKeeps(Less, a + b);
    SameMembers(Sort(Less, a + b), a + b);
    GroupsIncrease(Sort(Less, a + b));
  }

  // ---------------------------------------------------------------- owners between boundaries

  /** No entry lies in (a, p]: both positions see the same first entry. */
  lemma SameCut(es: seq<Entry>, a: int, p: int)
    requires Strictly(Precedes, es) && a <= p
    requires forall e :: e in es ==> !(a < e.position <= p)
    ensures Owner(es, a) == Owner(es, p)
  {
    var ps := Positions(es);
    OrderedPositionsAscend(es);
    var c := Cut(ps, a);
    if c < |ps| {
      assert es[c] in es;
      assert p < ps[c];
    }
    CutIsUnique(ps, p, c);
  }

  /** Beyond all entries and before all entries the same entry owns: the walk wraps. */
  lemma WrappedCut(es: seq<Entry>, a: int, p: int)
    requires Strictly(Precedes, es)
    requires forall e :: e in es ==> p < e.position <= a
    ensures Owner(es, a) == Owner(es, p)
  {
    var ps := Positions(es);
    assert forall i :: 0 <= i < |es| ==> es[i] in es;
    CutIsUnique(ps, a, |ps|);
    CutIsUnique(ps, p, 0);
  }

  /** `bs` holds at least the positions of `es`. */
  ghost predicate Bounds(bs: seq<int>, es: seq<Entry>) {
    Increasing(bs) && forall e :: e in es ==> e.position in bs
  }

  /** Interval k of the boundary list; the last one wraps. */
  function Next(bs: seq<int>, k: nat): int
    requires k < |bs|
  {
    bs[if k + 1 == |bs| then 0 else k + 1]
  }

  predicate InInterval(bs: seq<int>, k: nat, p: int)
    requires k < |bs|
  {
    if bs[k] < Next(bs, k) then bs[k] <= p < Next(bs, k) else p >= bs[k] || p < Next(bs, k)
  }

  lemma IntervalHasOneOwner(bs: seq<int>, es: seq<Entry>, k: nat, p: int)
    requires Bounds(bs, es) && k < |bs| && Strictly(Precedes, es) && InInterval(bs, k, p)
    ensures Owner(es, p) == Owner(es, bs[k])
  {
    if bs[k] <= p {
      forall e | e in es ensures !(bs[k] < e.position <= p) {
        var m :| 0 <= m < |bs| && bs[m] == e.position;
        if m > k { assert k + 1 < |bs| && bs[k + 1] <= bs[m]; }
      }
      SameCut(es, bs[k], p);
    } else {
      assert k + 1 == |bs|;
      forall e | e in es ensures p < e.position <= bs[k] {
        var m :| 0 <= m < |bs| && bs[m] == e.position;
        assert bs[0] <= bs[m] <= bs[k];
      }
      WrappedCut(es, bs[k], p);
    }
  }

  /** A routing table: the owner of every position. */
  type Routing = int -> Option<string>

  function Routes(es: seq<Entry>): (f: Routing)
    ensures forall p :: f(p) == Owner(es, p)
  {
    p => Owner(es, p)
  }

  /** Between neighbouring boundaries the owner never changes. */
  ghost predicate Steady(bs: seq<int>, f: Routing) {
    forall k, p :: 0 <= k < |bs| && InInterval(bs, k, p) ==> f(p) == f(bs[k])
  }

  lemma RoutesAreSteady(bs: seq<int>, es: seq<Entry>)
    requires Bounds(bs, es) && Strictly(Precedes, es)
    ensures Steady(bs, Routes(es))
  {
    forall k, p | 0 <= k < |bs| && InInterval(bs, k, p) ensures Routes(es)(p) == Routes(es)(bs[k]) {
      IntervalHasOneOwner(bs, es, k, p);
    }
  }

  /** The intervals tile the integers: each position lies in exactly one. */
  lemma {:induction false} IntervalsTile(bs: seq<int>, p: int) returns (k: nat)
    requires Increasing(bs) && bs != []
    ensures k < |bs| && InInterval(bs, k, p)
    ensures forall j :: 0 <= j < |bs| && InInterval(bs, j, p) ==> j == k
  {
    var c := Cut(bs, p);
    k := if c == 0 then |bs| - 1 else c - 1;
    forall j | 0 <= j < |bs| && j != k ensures !InInterval(bs, j, p) {
      if c == 0 {
        assert p < bs[0] <= bs[j];
      } else if j < c {
        assert Next(bs, j) == bs[j + 1] <= bs[c - 1];
      } else {
        assert bs[c] <= bs[j] && bs[0] <= bs[c - 1] <= p;
      }
    }
  }

  // ---------------------------------------------------------------- the sweep

  lemma OwnerByCut(es: seq<Entry>, p: int, index: nat)
    requires es != [] && index <= |es|
    requires forall i :: 0 <= i < index ==> es[i].position <= p
    requires index < |es| ==> p < es[index].position
    ensures Owner(es, p) == Some(es[index % |es|].node)
  {
    CutIsUnique(Positions(es), p, index);
    WrapOnce(index, |es|);
  }

  /** `_owners_at_boundaries`: advance one sorted topology over ascending boundaries. */
  method OwnersAtBoundaries(state: RingState, bs: seq<int>) returns (owners: seq<Option<string>>)
    requires Ascending(state.positions) && state.positions == Positions(state.entries) && Increasing(bs)
    ensures |owners| == |bs| && forall k :: 0 <= k < |bs| ==> owners[k] == Owner(state.entries, bs[k])
  {
    owners := [];
    var size := |state.entries|;
    if size == 0 {
      return seq(|bs|, _ => None);
    }
    var index := 0;
    for k := 0 to |bs|
      invariant |owners| == k && index <= size
      invariant forall j :: 0 <= j < k ==> owners[j] == Owner(state.entries, bs[j])
      invariant k < |bs| ==> forall i :: 0 <= i < index ==> state.positions[i] <= bs[k]
    {
      while index < size && state.positions[index] <= bs[k]
        invariant index <= size
        invariant forall i :: 0 <= i < index ==> state.positions[i] <= bs[k]
      {
        index := index + 1;
      }
      OwnerByCut(state.entries, bs[k], index);
      owners := owners + [Some(state.entries[index % size].node)];
    }
  }

  /** What an affected-range plan promises: ordered, disjoint intervals covering exactly the positions
      whose owner differs, each carrying the owners of every position in it. */
  ghost predicate IsPlan(ranges: seq<AffectedRange>, before: Routing, after: Routing) {
    && (forall i, j :: 0 <= i < j < |ranges| ==> ranges[i].start < ranges[j].start)
    && (forall i, j, p :: 0 <= i < j < |ranges| && ranges[i].Contains(p) ==> !ranges[j].Contains(p))
    && (forall i, p :: 0 <= i < |ranges| && ranges[i].Contains(p) ==>
          ranges[i].previousOwner == before(p) && ranges[i].newOwner == after(p) && before(p) != after(p))
    && (forall p :: before(p) != after(p) ==> exists i :: 0 <= i < |ranges| && ranges[i].Contains(p))
  }

  /** The range the sweep emits for boundary `k`. */
  function RangeAt(bs: seq<int>, k: nat, before: Routing, after: Routing): AffectedRange
    requires k < |bs|
  {
    AffectedRange(bs[k], Next(bs, k), before(bs[k]), after(bs[k]))
  }

  /** The ranges of the first `n` boundaries whose owners differ. */
  function Ranges(bs: seq<int>, n: nat, before: Routing, after: Routing): seq<AffectedRange>
    requires n <= |bs|
  {
    if n == 0 then []
    else
      var k := n - 1;
      Ranges(bs, k, before, after) + if before(bs[k]) != after(bs[k]) then [RangeAt(bs, k, before, after)] else []
  }

  lemma {:induction false} RangeOrigin(bs: seq<int>, n: nat, before: Routing, after: Routing, i: nat) returns (k: nat)
    requires n <= |bs| && i < |Ranges(bs, n, before, after)|
    ensures k < n && Ranges(bs, n, before, after)[i] == RangeAt(bs, k, before, after) && before(bs[k]) != after(bs[k])
  {
    if i < |Ranges(bs, n - 1, before, after)| {
      k := RangeOrigin(bs, n - 1, before, after, i);
    } else {
      k := n - 1;
    }
  }

  lemma {:induction false} RangeFound(bs: seq<int>, n: nat, before: Routing, after: Routing, k: nat) returns (i: nat)
    requires k < n <= |bs| && before(bs[k]) != after(bs[k])
    ensures i < |Ranges(bs, n, before, after)| && Ranges(bs, n, before, after)[i] == RangeAt(bs, k, before, after)
  {
    if k == n - 1 {
      i := |Ranges(bs, n - 1, before, after)|;
    } else {
      i := RangeFound(bs, n - 1, before, after, k);
    }
  }

  lemma {:induction false} RangesIncrease(bs: seq<int>, n: nat, before: Routing, after: Routing)
    requires Increasing(bs) && n <= |bs|
    ensures forall i, j :: 0 <= i < j < |Ranges(bs, n, before, after)| ==>
              Ranges(bs, n, before, after)[i].start < Ranges(bs, n, before, after)[j].start
  {
    if n > 0 {
      RangesIncrease(bs, n - 1, before, after);
      var earlier := Ranges(bs, n - 1, before, after);
      forall i | 0 <= i < |earlier| ensures earlier[i].start < bs[n - 1] {
        var k := RangeOrigin(bs, n - 1, before, after, i);
      }
    }
  }

  lemma RangesArePlan(bs: seq<int>, before: Routing, after: Routing)
    requires Increasing(bs) && Steady(bs, before) && Steady(bs, after)
    requires bs == [] ==> SameRouting(before, after)
    ensures IsPlan(Ranges(bs, |bs|, before, after), before, after)
  {
    hide Ranges, Increasing;
    var ranges := Ranges(bs, |bs|, before, after);
    RangesIncrease(bs, |bs|, before, after);
    forall i, p | 0 <= i < |ranges| && ranges[i].Contains(p)
      ensures ranges[i].previousOwner == before(p) && ranges[i].newOwner == after(p) && before(p) != after(p)
    {
      var k := RangeOrigin(bs, |bs|, before, after, i);
      assert InInterval(bs, k, p);
    }
    forall i, j, p | 0 <= i < j < |ranges| && ranges[i].Contains(p) ensures !ranges[j].Contains(p) {
      var k := RangeOrigin(bs, |bs|, before, after, i);
      var m := RangeOrigin(bs, |bs|, before, after, j);
      var t := IntervalsTile(bs, p);
      assert InInterval(bs, k, p) && k == t;
      assert ranges[i].start < ranges[j].start && !InInterval(bs, m, p);
    }
    forall p | before(p) != after(p) ensures exists i :: 0 <= i < |ranges| && ranges[i].Contains(p) {
      var k := IntervalsTile(bs, p);
      var i := RangeFound(bs, |bs|, before, after, k);
      assert ranges[i].Contains(p);
    }
  }

  /** The sweep over boundaries and their two owner columns. */
  method Sweep(bs: seq<int>, prior: seq<Option<string>>, next: seq<Option<string>>, ghost before: Routing,
      ghost after: Routing)
    returns (changed: seq<AffectedRange>)
    requires |prior| == |bs| == |next|
    requires forall k :: 0 <= k < |bs| ==> prior[k] == before(bs[k]) && next[k] == after(bs[k])
    ensures changed == Ranges(bs, |bs|, before, after)
  {
    changed := [];
    for k := 0 to |bs|
      invariant changed == Ranges(bs, k, before, after)
    {
      if prior[k] != next[k] {
        WrapOnce(k + 1, |bs|);
        changed := changed + [AffectedRange(bs[k], bs[(k + 1) % |bs|], prior[k], next[k])];
      }
    }
  }

  /** `affected_ranges`; `shared` says both views hold the very same state object. */
  method AffectedRanges(before: RingSnapshot, after: RingSnapshot, shared: bool)
      returns (r: Result<seq<AffectedRange>, MigrationError>)
    requires WellFormed(before) && WellFormed(after) && (shared ==> before.state == after.state)
    ensures r.Err? <==> before.hashId != after.hashId
    ensures r.Ok? ==> IsPlan(r.value, Routes(before.state.entries), Routes(after.state.entries))
  {
    if before.hashId != after.hashId { return Err(DifferentHash); }
    if shared { return Ok([]); }
    OrderedPositionsAscend(before.state.entries);
    OrderedPositionsAscend(after.state.entries);
    var bs := Boundaries(before.state.positions, after.state.positions);
    BoundariesCover(before.state.positions, after.state.positions);
    BoundsOf(bs, before, after);
    RoutesAreSteady(bs, before.state.entries);
    RoutesAreSteady(bs, after.state.entries);
    var prior := OwnersAtBoundaries(before.state, bs);
    var next := OwnersAtBoundaries(after.state, bs);
    var changed := Sweep(bs, prior, next, Routes(before.state.entries), Routes(after.state.entries));
    RangesArePlan(bs, Routes(before.state.entries), Routes(after.state.entries));
    r := Ok(changed);
  }

  lemma BoundsOf(bs: seq<int>, before: RingSnapshot, after: RingSnapshot)
    requires WellFormed(before) && WellFormed(after) && Increasing(bs)
    requires forall x :: x in bs <==> x in before.state.positions || x in after.state.positions
    ensures Bounds(bs, before.state.entries) && Bounds(bs, after.state.entries)
    ensures bs == [] ==> before.state.entries == [] && after.state.entries == []
  {
    forall e | e in before.state.entries ensures e.position in bs {
      var i :| 0 <= i < |before.state.entries| && before.state.entries[i] == e;
      assert before.state.positions[i] in before.state.positions;
    }
    forall e | e in after.state.entries ensures e.position in bs {
      var i :| 0 <= i < |after.state.entries| && after.state.entries[i] == e;
      assert after.state.positions[i] in after.state.positions;
    }
    assert before.state.entries != [] ==> before.state.entries[0] in before.state.entries;
    assert after.state.entries != [] ==> after.state.entries[0] in after.state.entries;
  }

  // ---------------------------------------------------------------- streaming the keys

  /** The naive migration list: route every key on both topologies and keep those that change. */
  function Naive(h: HashFunction, before: Routing, after: Routing, keys: seq<string>): Stream {
    if keys == [] then Stream([], false)
    else match h(keys[0])
      case None => Stream([], true)
      case Some(p) =>
        var rest := Naive(h, before, after, keys[1..]);
        if before(p) == after(p) then rest
        else rest.(records := [KeyMigration(keys[0], before(p), after(p))] + rest.records)
  }

  /** The greatest start not above `p`, wrapping to the last range, is the only range that can hold `p`. */
  lemma CandidateRange(ranges: seq<AffectedRange>, before: Routing, after: Routing, starts: seq<int>, p: int)
    requires IsPlan(ranges, before, after) && ranges != [] && |starts| == |ranges|
    requires forall i :: 0 <= i < |ranges| ==> starts[i] == ranges[i].start
    ensures var c := Cut(starts, p); var k := if c == 0 then |ranges| - 1 else c - 1;
      && (ranges[k].Contains(p) <==> before(p) != after(p))
      && (ranges[k].Contains(p) ==> ranges[k].previousOwner == before(p) && ranges[k].newOwner == after(p))
  {
    var c := Cut(starts, p);
    var k := if c == 0 then |ranges| - 1 else c - 1;
    forall j | 0 <= j < |ranges| && j != k ensures !ranges[j].Contains(p) {
      assert starts[j] == ranges[j].start && starts[k] == ranges[k].start;
      assert ranges[j].Contains(ranges[j].start) && ranges[k].Contains(ranges[k].start);
      assert !ranges[j].Contains(ranges[k].start);
      assert j >= c && c < |starts| ==> p < starts[c] <= starts[j];
    }
  }

  /** The generator body: one hash and one binary search a key. */
  method Select(ranges: seq<AffectedRange>, hash: HashFunction, keys: seq<string>, ghost before: Routing,
      ghost after: Routing)
    returns (out: Stream)
    requires IsPlan(ranges, before, after) && ranges != []
    ensures out == Naive(hash, before, after, keys)
  {
    var starts := seq(|ranges|, i requires 0 <= i < |ranges| => ranges[i].start);
    var records: seq<KeyMigration> := [];
    var rest := keys;
    while rest != []
      invariant Naive(hash, before, after, keys) ==
                Stream(records + Naive(hash, before, after, rest).records, Naive(hash, before, after, rest).failed)
      decreases |rest|
    {
      var position := hash(rest[0]);
      if position.None? { return Stream(records, true); }
      var c := BisectRight(starts, position.value);
      var interval := ranges[if c == 0 then |ranges| - 1 else c - 1];
      CandidateRange(ranges, before, after, starts, position.value);
      if interval.Contains(position.value) {
        var item := KeyMigration(rest[0], interval.previousOwner, interval.newOwner);
        assert records + ([item] + Naive(hash, before, after, rest[1..]).records)
            == (records + [item]) + Naive(hash, before, after, rest[1..]).records;
        records := records + [item];
      }
      rest := rest[1..];
    }
    out := Stream(records, false);
  }

  ghost predicate SameRouting(f: Routing, g: Routing) {
    forall p :: f(p) == g(p)
  }

  /** `iter_migrations`, drained. An unchanged topology consumes no key, so no hash can fail. */
  method IterMigrations(before: RingSnapshot, after: RingSnapshot, keys: seq<string>, shared: bool)
    returns (r: Result<Stream, MigrationError>)
    requires WellFormed(before) && WellFormed(after) && (shared ==> before.state == after.state)
    requires before.hashId == after.hashId ==> before.hash == after.hash
    ensures r.Err? <==> before.hashId != after.hashId
    ensures r.Ok? && SameRouting(Routes(before.state.entries), Routes(after.state.entries)) ==>
      r.value == Stream([], false)
    ensures r.Ok? && !SameRouting(Routes(before.state.entries), Routes(after.state.entries)) ==>
              r.value == Naive(before.hash, Routes(before.state.entries), Routes(after.state.entries), keys)
  {
    ghost var f, g := Routes(before.state.entries), Routes(after.state.entries);
    var plan := AffectedRanges(before, after, shared);
    if plan.Err? { return Err(plan.error); }
    var ranges := plan.value;
    if ranges == [] {
      assert SameRouting(f, g);
      return Ok(Stream([], false));
    }
    assert ranges[0].Contains(ranges[0].start);
    assert f(ranges[0].start) != g(ranges[0].start);
    var out := Select(ranges, before.hash, keys, f, g);
    r := Ok(out);
  }

  /** The plan of an addition names only the new node as new owner; of a removal, only the old one as previous owner. */
  lemma OneSidedPlan(ranges: seq<AffectedRange>, small: seq<Entry>, large: seq<Entry>, node: string)
    requires Strictly(Precedes, small) && Strictly(Precedes, large)
    requires forall e :: e in small ==> e in large
    requires forall e :: e in large && e !in small ==> e.node == node
    ensures IsPlan(ranges, Routes(small), Routes(large)) ==> forall i :: 0 <= i < |ranges| ==>
      ranges[i].newOwner == Some(node)
    ensures IsPlan(ranges, Routes(large), Routes(small)) ==> forall i :: 0 <= i < |ranges| ==>
      ranges[i].previousOwner == Some(node)
  {
    forall i | 0 <= i < |ranges|
      ensures IsPlan(ranges, Routes(small), Routes(large)) ==> ranges[i].newOwner == Some(node)
      ensures IsPlan(ranges, Routes(large), Routes(small)) ==> ranges[i].previousOwner == Some(node)
    {
      assert ranges[i].Contains(ranges[i].start);
      Locality(small, large, ranges[i].start);
      assert forall e :: IsOwner(large, ranges[i].start, e) ==> e in large;
    }
  }
}
