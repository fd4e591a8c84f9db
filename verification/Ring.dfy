/** The consistent-hash ring: virtual-node entries, strict-clockwise lookup and membership changes. */
module Ring {
  import opened Wrappers
  import opened Sorting
  import Texts

  /** A caller-supplied hash; None stands for a callable that raises or returns a non-integer. */
  type HashFunction = string -> Option<int>

  datatype Entry = Entry(position: int, node: string, index: nat)

  /** One published topology; the source never modifies a published one. */
  datatype RingState = RingState(entries: seq<Entry>, positions: seq<int>, nodes: seq<string>)

  datatype RingError = InvalidNode | InvalidCount | DuplicateNode | UnknownNode | CapacityExceeded | HashFailed
      | EmptyRing

  // ---------------------------------------------------------------- entry order

  /** Tuple order on (position, node, index). */
  predicate Precedes(a: Entry, b: Entry) {
    a.position < b.position
    || (a.position == b.position
        && (Texts.TextLess(a.node, b.node) || (a.node == b.node && a.index < b.index)))
  }

  lemma PrecedesTotal(a: Entry, b: Entry)
    ensures a == b || Precedes(a, b) || Precedes(b, a)
    ensures !(Precedes(a, b) && Precedes(b, a))
  {
    Texts.TextTotal(a.node, b.node);
  }

  lemma PrecedesTransitive(a: Entry, b: Entry, c: Entry)
    requires Precedes(a, b) && Precedes(b, c)
    ensures Precedes(a, c)
  {
    if Texts.TextLess(a.node, b.node) && Texts.TextLess(b.node, c.node) {
      Texts.TextTransitive(a.node, b.node, c.node);
    }
  }

  lemma PrecedesIsStrict()
    ensures StrictWeak(Precedes)
  {
    forall a, b | Precedes(a, b) ensures !Precedes(b, a) { PrecedesTotal(a, b); }
    forall a, b, c | !Precedes(b, a) && !Precedes(c, b) ensures !Precedes(c, a) {
      PrecedesTotal(a, b);
      PrecedesTotal(b, c);
      PrecedesTotal(a, c);
      if Precedes(c, a) {
        if Precedes(a, b) { PrecedesTransitive(c, a, b); }
      }
    }
  }

  // ---------------------------------------------------------------- lookup

  function Positions(es: seq<Entry>): (ps: seq<int>)
    ensures |ps| == |es| && forall i :: 0 <= i < |es| ==> ps[i] == es[i].position
  {
    seq(|es|, i requires 0 <= i < |es| => es[i].position)
  }

  /** The first index whose position is strictly greater than `p`. */
  function Cut(ps: seq<int>, p: int): (c: nat)
    ensures c <= |ps| && (forall i :: 0 <= i < c ==> ps[i] <= p) && (c < |ps| ==> ps[c] > p)
  {
    if ps == [] || ps[0] > p then 0 else 1 + Cut(ps[1..], p)
  }

  lemma {:induction false} CutIsUnique(ps: seq<int>, p: int, r: nat)
    requires r <= |ps| && (forall i :: 0 <= i < r ==> ps[i] <= p) && (r < |ps| ==> p < ps[r])
    ensures r == Cut(ps, p)
  {
    if r > 0 { CutIsUnique(ps[1..], p, r - 1); }
  }

  ghost predicate Ascending(ps: seq<int>) {
    forall i, j :: 0 <= i < j < |ps| ==> ps[i] <= ps[j]
  }

  /** `bisect_right` on an ascending sequence. */
  method BisectRight(ps: seq<int>, p: int) returns (r: nat)
    requires Ascending(ps)
    ensures r <= |ps|
    ensures forall i :: 0 <= i < r ==> ps[i] <= p
    ensures forall i :: r <= i < |ps| ==> p < ps[i]
    ensures r == Cut(ps, p)
  {
    var lo, hi := 0, |ps|;
    while lo < hi
      invariant 0 <= lo <= hi <= |ps|
      invariant forall i :: 0 <= i < lo ==> ps[i] <= p
      invariant forall i :: hi <= i < |ps| ==> p < ps[i]
    {
      var mid := (lo + hi) / 2;
      if p < ps[mid] { hi := mid; } else { lo := mid + 1; }
    }
    r := lo;
    CutIsUnique(ps, p, r);
  }

  /** Position `p` walks clockwise: entries beyond `p` first, then the wrapped ones, each run in ring order. */
  predicate Clockwise(p: int, a: Entry, b: Entry) {
    if (a.position > p) == (b.position > p) then Precedes(a, b) else a.position > p
  }

  lemma ClockwiseTotal(p: int, a: Entry, b: Entry)
    ensures a == b || Clockwise(p, a, b) || Clockwise(p, b, a)
    ensures !(Clockwise(p, a, b) && Clockwise(p, b, a))
  {
    PrecedesTotal(a, b);
  }

  lemma ClockwiseTransitive(p: int, a: Entry, b: Entry, c: Entry)
    requires Clockwise(p, a, b) && Clockwise(p, b, c)
    ensures Clockwise(p, a, c)
  {
    if Precedes(a, b) && Precedes(b, c) { PrecedesTransitive(a, b, c); }
  }

  /** `e` is the entry met first when walking clockwise from `p`: what "owner" means. */
  ghost predicate IsOwner(es: seq<Entry>, p: int, e: Entry) {
    e in es && forall f :: f in es && f != e ==> Clockwise(p, e, f)
  }

  lemma WrapOnce(a: nat, n: nat)
    requires a < 2 * n
    ensures a % n == if a < n then a else a - n
  {
  }

  /** The index `_start` computes. */
  function Start(es: seq<Entry>, p: int): (i: nat)
    requires es != []
    ensures i == if Cut(Positions(es), p) == |es| then 0 else Cut(Positions(es), p)
  {
    WrapOnce(Cut(Positions(es), p), |es|);
    Cut(Positions(es), p) % |es|
  }

  /** The owner of a hash position; None on the empty ring. */
  function Owner(es: seq<Entry>, p: int): Option<string> {
    if es == [] then None else Some(es[Start(es, p)].node)
  }

  /** The entries in the order the source visits them from `Start`. */
  function Walk(es: seq<Entry>, p: int): (w: seq<Entry>)
    requires es != []
    ensures |w| == |es|
  {
    es[Start(es, p)..] + es[..Start(es, p)]
  }

  lemma WalkMeetsAll(es: seq<Entry>, p: int)
    requires es != []
    ensures forall e :: e in Walk(es, p) <==> e in es
  {
    var s := Start(es, p);
    assert es == es[..s] + es[s..];
  }

  lemma OrderedPositionsAscend(es: seq<Entry>)
    requires Strictly(Precedes, es)
    ensures Ascending(Positions(es))
  {
  }

  /** Two entries on the same side of the cut keep ring order; otherwise the one beyond it comes first. */
  lemma CutSplitsClockwise(es: seq<Entry>, p: int, a: nat, b: nat)
    requires Strictly(Precedes, es) && a < |es| && b < |es|
    requires var c := Cut(Positions(es), p); if (a < c) == (b < c) then a < b else b < c
    ensures Clockwise(p, es[a], es[b])
  {
    var ps := Positions(es);
    var c := Cut(ps, p);
    assert forall i :: 0 <= i < c ==> ps[i] <= p;
    if a > c { assert Precedes(es[c], es[a]); }
    if b > c { assert Precedes(es[c], es[b]); }
  }

  ghost predicate InWalkOrder(p: int, w: seq<Entry>) {
    forall i, j :: 0 <= i < j < |w| ==> Clockwise(p, w[i], w[j])
  }

  lemma WalkPair(es: seq<Entry>, p: int, i: nat, j: nat)
    requires es != [] && Strictly(Precedes, es) && i < j < |es|
    ensures Clockwise(p, Walk(es, p)[i], Walk(es, p)[j])
  {
    hide Precedes, Clockwise, Cut, Strictly, Positions;
    var n, s := |es|, Start(es, p);
    var a, b := if i < n - s then s + i else i - (n - s), if j < n - s then s + j else j - (n - s);
    assert Walk(es, p)[i] == es[a] && Walk(es, p)[j] == es[b];
    CutSplitsClockwise(es, p, a, b);
  }

  /** The rotated scan meets entries exactly in clockwise order. */
  lemma WalkIsClockwise(es: seq<Entry>, p: int)
    requires es != [] && Strictly(Precedes, es)
    ensures InWalkOrder(p, Walk(es, p))
  {
    forall i, j | 0 <= i < j < |es| ensures Clockwise(p, Walk(es, p)[i], Walk(es, p)[j]) {
      WalkPair(es, p, i, j);
    }
  }

  /** Strict-clockwise lookup finds the owner, and no ring position has two. */
  lemma LookupFindsOwner(es: seq<Entry>, p: int)
    requires es != [] && Strictly(Precedes, es)
    ensures IsOwner(es, p, es[Start(es, p)])
    ensures forall e :: IsOwner(es, p, e) ==> e == es[Start(es, p)]
  {
    var w := Walk(es, p);
    var o := es[Start(es, p)];
    WalkIsClockwise(es, p);
    WalkMeetsAll(es, p);
    assert w[0] == o;
    forall f | f in es && f != o ensures Clockwise(p, o, f) {
      assert f in w;
      var k :| 0 <= k < |w| && w[k] == f;
    }
    forall e | IsOwner(es, p, e) ensures e == o { ClockwiseTotal(p, e, o); }
  }

  /** No entry at the very position of a key owns it while any entry lies elsewhere. */
  lemma EqualPositionIsSkipped(es: seq<Entry>, p: int, e: Entry, g: Entry)
    requires IsOwner(es, p, e) && g in es && g.position != p
    ensures e.position != p
  {
    if g != e { assert Clockwise(p, e, g); }
  }

  // ---------------------------------------------------------------- locality

  /** Adding entries, of one node or of many, moves a position only onto an added entry; read backwards, taking
      entries away moves only the positions those entries owned. */
  lemma Locality(small: seq<Entry>, large: seq<Entry>, p: int)
    requires Strictly(Precedes, small) && Strictly(Precedes, large)
    requires forall e :: e in small ==> e in large
    ensures Owner(small, p) != Owner(large, p) ==>
      exists e :: e !in small && IsOwner(large, p, e) && Owner(large, p) == Some(e.node)
  {
    assert small != [] ==> small[0] in small;
    if large != [] {
      LookupFindsOwner(large, p);
      var o := large[Start(large, p)];
      if small != [] && o in small {
        LookupFindsOwner(small, p);
        forall f | f in small && f != o ensures Clockwise(p, o, f) { assert f in large; }
        assert IsOwner(small, p, o);
      }
    }
  }

  // ---------------------------------------------------------------- replica candidates

  /** Entries `ws` name the first |ws| distinct servers met clockwise from `p`: each is its server's
      first entry, they come in walking order, and every other server comes later. */
  ghost predicate IsPreferenceList(es: seq<Entry>, p: int, ws: seq<Entry>) {
    && InWalkOrder(p, ws)
    && (forall i :: 0 <= i < |ws| ==> ws[i] in es)
    && (forall i, f :: 0 <= i < |ws| && f in es && f.node == ws[i].node ==> f == ws[i] || Clockwise(p, ws[i], f))
    && (forall i, f :: 0 <= i < |ws| && f in es && f.node !in Names(ws) ==> Clockwise(p, ws[i], f))
  }

  function Names(ws: seq<Entry>): (ns: seq<string>)
    ensures |ns| == |ws| && forall i :: 0 <= i < |ws| ==> ns[i] == ws[i].node
  {
    seq(|ws|, i requires 0 <= i < |ws| => ws[i].node)
  }

  lemma PreferredNamesDiffer(es: seq<Entry>, p: int, ws: seq<Entry>)
    requires IsPreferenceList(es, p, ws)
    ensures Distinct(Names(ws))
  {
    forall i, j | 0 <= i < j < |ws| ensures Names(ws)[i] != Names(ws)[j] {
      ClockwiseTotal(p, ws[i], ws[j]);
      ClockwiseTotal(p, ws[i], ws[i]);
    }
  }

  /** The k-th choice is the first entry clockwise among all servers not already chosen. */
  lemma NextPreferred(es: seq<Entry>, p: int, ws: seq<Entry>, k: nat, f: Entry)
    requires IsPreferenceList(es, p, ws) && k < |ws|
    requires f in es && f.node !in Names(ws[..k])
    ensures f == ws[k] || Clockwise(p, ws[k], f)
  {
    if f.node in Names(ws) {
      var j :| 0 <= j < |ws| && Names(ws)[j] == f.node;
      assert forall i :: 0 <= i < k ==> Names(ws[..k])[i] == ws[i].node;
      if j != k && f != ws[j] { ClockwiseTransitive(p, ws[k], ws[j], f); }
    }
  }

  /** Asking for more candidates extends the shorter answer: preference lists are prefixes of one another. */
  lemma {:induction false} PreferenceIsPrefixMonotone(es: seq<Entry>, p: int, short: seq<Entry>, long: seq<Entry>,
      n: nat)
    requires IsPreferenceList(es, p, short) && IsPreferenceList(es, p, long) && n <= |short| <= |long|
    ensures short[..n] == long[..n]
  {
    if n > 0 {
      var k := n - 1;
      PreferenceIsPrefixMonotone(es, p, short, long, k);
      PreferredNamesDiffer(es, p, short);
      PreferredNamesDiffer(es, p, long);
      ChosenOnce(short, k);
      ChosenOnce(long, k);
      NextPreferred(es, p, long, k, short[k]);
      NextPreferred(es, p, short, k, long[k]);
      ClockwiseTotal(p, short[k], long[k]);
      assert short[..n] == short[..k] + [short[k]] && long[..n] == long[..k] + [long[k]];
    }
  }

  lemma ChosenOnce(ws: seq<Entry>, k: nat)
    requires Distinct(Names(ws)) && k < |ws|
    ensures ws[k].node !in Names(ws[..k])
  {
    forall j | 0 <= j < k ensures Names(ws[..k])[j] != ws[k].node {
      assert Names(ws)[j] != Names(ws)[k];
    }
  }

  /** `ws` holds the first entry of every server among the first `offset` entries of the walk, in order. */
  ghost predicate Scanned(p: int, w: seq<Entry>, offset: nat, ws: seq<Entry>) {
    && offset <= |w|
    && InWalkOrder(p, ws)
    && (forall i :: 0 <= i < |ws| ==> ws[i] in w[..offset])
    && (forall k :: 0 <= k < offset ==> w[k].node in Names(ws))
    && (forall i, k :: 0 <= i < |ws| && 0 <= k < offset && w[k].node == ws[i].node ==>
         w[k] == ws[i] || Clockwise(p, ws[i], w[k]))
    && (offset > 0 ==> |ws| > 0 && ws[0] == w[0])
  }

  /** An entry of a server already seen adds nothing. */
  lemma ScanSkips(p: int, w: seq<Entry>, offset: nat, ws: seq<Entry>)
    requires Scanned(p, w, offset, ws) && offset < |w| && InWalkOrder(p, w) && w[offset].node in Names(ws)
    ensures Scanned(p, w, offset + 1, ws)
  {
    hide Clockwise;
    assert w[..offset + 1] == w[..offset] + [w[offset]];
    forall i, k | 0 <= i < |ws| && 0 <= k < offset + 1 && w[k].node == ws[i].node
      ensures w[k] == ws[i] || Clockwise(p, ws[i], w[k])
    {
      if k == offset { ScannedAt(p, w, offset, ws, i, k); }
    }
  }

  /** What was chosen was met before anything later in the walk. */
  lemma ScannedAt(p: int, w: seq<Entry>, offset: nat, ws: seq<Entry>, i: nat, k: nat)
    requires Scanned(p, w, offset, ws) && InWalkOrder(p, w) && i < |ws| && offset <= k < |w|
    ensures Clockwise(p, ws[i], w[k])
  {
    hide Clockwise;
    assert ws[i] in w[..offset];
    var m :| 0 <= m < offset && w[..offset][m] == ws[i];
    assert ws[i] == w[m];
  }

  /** An entry of a new server is chosen next. */
  lemma ScanTakes(p: int, w: seq<Entry>, offset: nat, ws: seq<Entry>)
    requires Scanned(p, w, offset, ws) && offset < |w| && InWalkOrder(p, w) && w[offset].node !in Names(ws)
    ensures Scanned(p, w, offset + 1, ws + [w[offset]])
  {
    hide Clockwise;
    var e := w[offset];
    var ws' := ws + [e];
    assert w[..offset + 1] == w[..offset] + [e];
    assert Names(ws') == Names(ws) + [e.node];
    forall i | 0 <= i < |ws| ensures Clockwise(p, ws[i], e) { ScannedAt(p, w, offset, ws, i, offset); }
    forall i, k | 0 <= i < |ws'| && 0 <= k < offset + 1 && w[k].node == ws'[i].node
      ensures w[k] == ws'[i] || Clockwise(p, ws'[i], w[k])
    {
      assert k < offset ==> w[k].node in Names(ws);
    }
  }

  lemma ScanStep(p: int, w: seq<Entry>, offset: nat, ws: seq<Entry>)
    requires Scanned(p, w, offset, ws) && offset < |w| && InWalkOrder(p, w)
    ensures Scanned(p, w, offset + 1, if w[offset].node in Names(ws) then ws else ws + [w[offset]])
  {
    hide Scanned, InWalkOrder, Names;
    if w[offset].node in Names(ws) { ScanSkips(p, w, offset, ws); } else { ScanTakes(p, w, offset, ws); }
  }

  /** The first entry of every server among the first `n` entries of a walk. */
  function Firsts(w: seq<Entry>, n: nat): seq<Entry>
    requires n <= |w|
  {
    if n == 0 then []
    else
      var ws := Firsts(w, n - 1);
      if w[n - 1].node in Names(ws) then ws else ws + [w[n - 1]]
  }

  lemma NothingScanned(p: int, w: seq<Entry>)
    ensures Scanned(p, w, 0, [])
  {
  }

  lemma {:induction false} FirstsAreScanned(p: int, w: seq<Entry>, n: nat)
    requires n <= |w| && InWalkOrder(p, w)
    ensures Scanned(p, w, n, Firsts(w, n))
  {
    hide Scanned, InWalkOrder, Clockwise, Names;
    if n == 0 {
      NothingScanned(p, w);
    } else {
      FirstsAreScanned(p, w, n - 1);
      ScanStep(p, w, n - 1, Firsts(w, n - 1));
    }
  }

  lemma ScannedListIsPreferred(es: seq<Entry>, p: int, w: seq<Entry>, offset: nat, ws: seq<Entry>)
    requires es != [] && w == Walk(es, p) && InWalkOrder(p, w)
    requires Scanned(p, w, offset, ws)
    ensures IsPreferenceList(es, p, ws)
  {
    hide Clockwise, Walk;
    WalkMeetsAll(es, p);
    forall i | 0 <= i < |ws| ensures ws[i] in es {
      assert ws[i] in w[..offset];
      assert ws[i] in w;
    }
    forall i, f | 0 <= i < |ws| && f in es && (f.node == ws[i].node || f.node !in Names(ws))
      ensures f == ws[i] || Clockwise(p, ws[i], f)
      ensures f.node !in Names(ws) ==> Clockwise(p, ws[i], f)
    {
      assert f in w;
      var k :| 0 <= k < |w| && w[k] == f;
      var m :| 0 <= m < offset && w[..offset][m] == ws[i];
      assert ws[i] == w[m];
      if k >= offset { assert Clockwise(p, w[m], w[k]); }
      assert Names(ws)[i] == ws[i].node;
    }
  }

  /** The scanning loop of `get_nodes`: distinct servers from index `start` on, at most `target` of them. */
  method FirstDistinct(es: seq<Entry>, start: nat, target: nat, ghost w: seq<Entry>)
      returns (result: seq<string>, ghost n: nat)
    requires es != [] && start < |es| && |w| == |es|
    requires forall i :: 0 <= i < |es| ==> w[i] == es[if start + i < |es| then start + i else start + i - |es|]
    ensures n <= |w| && result == Names(Firsts(w, n)) && |result| <= target
    ensures |result| == target || n == |es|
  {
    result, n := [], 0;
    var seen: set<string> := {};
    var i := 0;
    while i < |es| && |result| < target
      invariant n == i <= |es|
      invariant result == Names(Firsts(w, n)) && |result| <= target
      invariant forall x :: x in seen <==> x in result
    {
      var at := (start + i) % |es|;
      WrapOnce(start + i, |es|);
      var node := es[at].node;
      if node !in seen {
        seen := seen + {node};
        result := result + [node];
      }
      i, n := i + 1, n + 1;
    }
  }

  lemma FullScanSeesAll(es: seq<Entry>, p: int, ws: seq<Entry>, nodes: seq<string>)
    requires es != [] && Scanned(p, Walk(es, p), |es|, ws)
    requires Distinct(nodes) && forall n :: n in nodes ==> exists e :: e in es && e.node == n
    ensures |nodes| <= |ws|
  {
    WalkMeetsAll(es, p);
    forall n | n in nodes ensures n in Names(ws) {
      var e :| e in es && e.node == n;
      assert e in Walk(es, p);
    }
    DistinctFits(nodes, Names(ws));
  }

  /** The ring state lists each server once, and exactly those that have entries. */
  ghost predicate NodesListed(state: RingState) {
    Distinct(state.nodes) && forall n :: n in state.nodes <==> exists e :: e in state.entries && e.node == n
  }

  /** `get_nodes` on one snapshot, for a key whose hash is `hashed`. */
  method GetNodes(state: RingState, hashed: Option<int>, count: int)
      returns (r: Result<seq<string>, RingError>, ghost ws: seq<Entry>)
    requires Strictly(Precedes, state.entries) && state.positions == Positions(state.entries) && NodesListed(state)
    ensures r.Err? <==> count < 0 || (count > 0 && (state.entries == [] || hashed == None))
    ensures r.Err? ==> r.error == if count < 0 then InvalidCount else if state.entries == [] then EmptyRing
      else HashFailed
    ensures r.Ok? && count == 0 ==> r.value == []
    ensures r.Ok? && count > 0 ==>
              && IsPreferenceList(state.entries, hashed.value, ws) && r.value == Names(ws)
              && |ws| == (if count <= |state.nodes| then count else |state.nodes|)
              && |ws| > 0 && Some(r.value[0]) == Owner(state.entries, hashed.value)
  {
    hide Firsts, IsPreferenceList, Precedes, Clockwise, InWalkOrder, Strictly, Cut;
    ws := [];
    if count < 0 { return Err(InvalidCount), []; }
    if count == 0 { return Ok([]), []; }
    if state.entries == [] { return Err(EmptyRing), []; }
    if hashed == None { return Err(HashFailed), []; }
    OrderedPositionsAscend(state.entries);
    var cut := BisectRight(state.positions, hashed.value);
    var target := if count <= |state.nodes| then count else |state.nodes|;
    assert state.entries[0] in state.entries;
    assert state.entries[0].node in state.nodes;
    WalkIsClockwise(state.entries, hashed.value);
    ghost var w := Walk(state.entries, hashed.value);
    var result; ghost var offset;
    result, offset := FirstDistinct(state.entries, cut % |state.entries|, target, w);
    ws := Firsts(w, offset);
    FirstsAreScanned(hashed.value, w, offset);
    ScannedListIsPreferred(state.entries, hashed.value, Walk(state.entries, hashed.value), offset, ws);
    if |result| < target {
      FullScanSeesAll(state.entries, hashed.value, ws, state.nodes);
    }
    r := Ok(result);
  }

  lemma {:induction false} DistinctFits(a: seq<string>, b: seq<string>)
    requires Distinct(a) && forall n :: n in a ==> n in b
    ensures |a| <= |b|
    decreases |a|
  {
    if a != [] {
      assert a[0] in a && a[0] in b;
      var i :| 0 <= i < |b| && b[i] == a[0];
      var b' := b[..i] + b[i + 1..];
      forall n | n in a[1..] ensures n in b' {
        var k :| 0 <= k < |a[1..]| && a[1..][k] == n;
        assert n == a[k + 1] && n != a[0] && n in b;
        var j :| 0 <= j < |b| && b[j] == n;
        if j < i { assert b'[j] == n; } else { assert b'[j - 1] == n; }
      }
      DistinctFits(a[1..], b');
    }
  }
}
