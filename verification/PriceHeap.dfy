/** The binary min-heap of `heapq` on a list of integers, used for best prices. */
module PriceHeap {

  function Parent(i: int): int
    requires i > 0
  {
    (i - 1) / 2
  }

  /** `heap[(index - 1) // 2] <= heap[index]` for every index, as the audit checks it. */
  ghost predicate IsHeap(h: seq<int>) {
    forall i :: 0 < i < |h| ==> h[Parent(i)] <= h[i]
  }

  lemma {:induction false} RootIsLeast(h: seq<int>, i: nat)
    requires IsHeap(h) && i < |h|
    ensures h[0] <= h[i]
  {
    if i > 0 { RootIsLeast(h, Parent(i)); }
  }

  /** In heap order except that position `p` may lie below its parent's value; its children clear `p`'s parent. */
  ghost predicate HeapUpTo(h: seq<int>, p: nat) {
    && p < |h|
    && (forall i :: 0 < i < |h| && i != p ==> h[Parent(i)] <= h[i])
    && (forall i :: 0 < i < |h| && p > 0 && Parent(i) == p ==> h[Parent(p)] <= h[i])
  }

  /** In heap order except between position `p` and its children, and between `p` and its parent. */
  ghost predicate HeapAround(h: seq<int>, p: nat) {
    && p < |h|
    && (forall i :: 0 < i < |h| && i != p && Parent(i) != p ==> h[Parent(i)] <= h[i])
    && (forall i :: 0 < i < |h| && p > 0 && Parent(i) == p ==> h[Parent(p)] <= h[i])
  }

  lemma SwapKeepsContents(h: seq<int>, i: nat, j: nat)
    requires i < |h| && j < |h| && i != j
    ensures multiset(h[i := h[j]][j := h[i]]) == multiset(h)
  {
    var g := h[i := h[j]];
    assert multiset(g) == multiset(h) - multiset{h[i]} + multiset{h[j]};
    assert g[j] == h[j];
    assert multiset(g[j := h[i]]) == multiset(g) - multiset{g[j]} + multiset{h[i]};
  }

  lemma LiftKeepsUpTo(h: seq<int>, p: nat)
    requires HeapUpTo(h, p) && p > 0 && h[p] < h[Parent(p)]
    ensures HeapUpTo(h[p := h[Parent(p)]][Parent(p) := h[p]], Parent(p))
  {
    var q := Parent(p);
    var r := h[p := h[q]][q := h[p]];
    forall i | 0 < i < |r| && i != q ensures r[Parent(i)] <= r[i] {
      if i != p { assert h[Parent(i)] <= h[i]; }
    }
    forall i | 0 < i < |r| && q > 0 && Parent(i) == q ensures r[Parent(q)] <= r[i] {
      assert h[Parent(q)] <= h[q];
      if i != p { assert h[q] <= h[i]; }
    }
  }

  lemma SettledIsHeap(h: seq<int>, p: nat)
    requires HeapUpTo(h, p) && (p > 0 ==> h[Parent(p)] <= h[p])
    ensures IsHeap(h)
  {
  }

  lemma UpToIsInside(h: seq<int>, p: nat)
    requires HeapUpTo(h, p)
    ensures p < |h|
  {
  }

  /** `_siftdown`: move the value at `start` towards the root until its parent is no larger. */
  method SiftDown(h: seq<int>, start: nat) returns (r: seq<int>)
    requires HeapUpTo(h, start)
    ensures IsHeap(r) && multiset(r) == multiset(h)
  {
    hide HeapUpTo, IsHeap;
    r := h;
    var p: nat := start;
    UpToIsInside(r, p);
    while p > 0 && r[p] < r[Parent(p)]
      invariant p < |r| && HeapUpTo(r, p) && multiset(r) == multiset(h)
      decreases p
    {
      var q := Parent(p);
      SwapKeepsContents(r, p, q);
      LiftKeepsUpTo(r, p);
      r := r[p := r[q]][q := r[p]];
      p := q;
    }
    SettledIsHeap(r, p);
  }

  /** `c` is the child of `p` that `_siftup` promotes. */
  ghost predicate SmallerChild(h: seq<int>, p: nat, c: nat) {
    && c < |h| && (c == 2 * p + 1 || c == 2 * p + 2)
    && forall i :: 0 < i < |h| && Parent(i) == p ==> h[c] <= h[i]
  }

  lemma ChildrenOf(p: nat, i: nat)
    requires i > 0
    ensures Parent(i) == p <==> i == 2 * p + 1 || i == 2 * p + 2
  {
  }

  lemma PromoteKeepsAround(h: seq<int>, p: nat, c: nat)
    requires HeapAround(h, p) && SmallerChild(h, p, c)
    ensures HeapAround(h[p := h[c]][c := h[p]], c)
  {
    var r := h[p := h[c]][c := h[p]];
    ChildrenOf(p, c);
    forall i | 0 < i < |r| && i != c && Parent(i) != c ensures r[Parent(i)] <= r[i] {
      if i == p { assert h[Parent(p)] <= h[c]; }
    }
    forall i | 0 < i < |r| && Parent(i) == c ensures r[Parent(c)] <= r[i] {
      assert h[Parent(i)] <= h[i];
    }
  }

  /** `_siftup`: move the root value to a leaf along the smaller children, then sift it back. */
  method SiftUp(h: seq<int>) returns (r: seq<int>)
    requires h != [] && HeapAround(h, 0)
    ensures IsHeap(r) && multiset(r) == multiset(h)
  {
    hide HeapAround, HeapUpTo, IsHeap, SmallerChild;
    r := h;
    var p: nat := 0;
    while 2 * p + 1 < |r|
      invariant HeapAround(r, p) && multiset(r) == multiset(h)
      decreases |r| - p
    {
      var c := 2 * p + 1;
      if c + 1 < |r| && !(r[c] < r[c + 1]) { c := c + 1; }
      PickedIsSmaller(r, p, c);
      PromoteKeepsAround(r, p, c);
      SwapKeepsContents(r, p, c);
      r := r[p := r[c]][c := r[p]];
      p := c;
    }
    LeafIsUpTo(r, p);
    r := SiftDown(r, p);
  }

  lemma LeafIsUpTo(h: seq<int>, p: nat)
    requires HeapAround(h, p) && 2 * p + 1 >= |h|
    ensures HeapUpTo(h, p)
  {
    forall i | 0 < i < |h| ensures Parent(i) != p { ChildrenOf(p, i); }
  }

  lemma PickedIsSmaller(h: seq<int>, p: nat, c: nat)
    requires c < |h| && (c == 2 * p + 1 || c == 2 * p + 2)
    requires if c == 2 * p + 1 then c + 1 < |h| ==> h[c] < h[c + 1] else h[c] <= h[c - 1]
    ensures SmallerChild(h, p, c)
  {
    forall i | 0 < i < |h| && Parent(i) == p ensures h[c] <= h[i] { ChildrenOf(p, i); }
  }

  /** `heappush`. */
  method Push(h: seq<int>, x: int) returns (r: seq<int>)
    requires IsHeap(h)
    ensures IsHeap(r) && multiset(r) == multiset(h) + multiset{x}
  {
    r := SiftDown(h + [x], |h|);
  }

  /** `heappop`, discarding the smallest value. */
  method Pop(h: seq<int>) returns (r: seq<int>)
    requires IsHeap(h) && h != []
    ensures IsHeap(r) && multiset(r) == multiset(h) - multiset{h[0]} && |r| == |h| - 1
  {
    var last := h[|h| - 1];
    r := h[..|h| - 1];
    assert h == r + [last];
    if r != [] {
      assert multiset(r[0 := last]) == multiset(r) - multiset{r[0]} + multiset{last};
      r := SiftUp(r[0 := last]);
    }
    assert |multiset(r)| == |r| && |multiset(h)| == |h|;
  }

  /** `heapify`: any list becomes a heap of the same values. The layout may differ from `heapq`'s. */
  method Heapify(values: seq<int>) returns (r: seq<int>)
    ensures IsHeap(r) && multiset(r) == multiset(values)
  {
    r := [];
    for i := 0 to |values|
      invariant IsHeap(r) && multiset(r) == multiset(values[..i])
    {
      assert values[..i + 1] == values[..i] + [values[i]];
      r := Push(r, values[i]);
    }
    assert values[..|values|] == values;
  }

  /** `sorted` over a set of distinct prices. */
  method SortedValues(s: set<int>) returns (values: seq<int>)
    ensures forall p :: p in values <==> p in s
    ensures forall i, j :: 0 <= i < j < |values| ==> values[i] < values[j]
    ensures |values| == |s|
  {
    values := [];
    var left := s;
    while left != {}
      invariant left <= s && |values| + |left| == |s|
      invariant forall p :: p in values <==> p in s && p !in left
      invariant forall i, j :: 0 <= i < j < |values| ==> values[i] < values[j]
      invariant forall p, i :: p in left && 0 <= i < |values| ==> values[i] < p
      decreases left
    {
      var least := LeastOf(left);
      values := values + [least];
      left := left - {least};
    }
  }

  method LeastOf(s: set<int>) returns (least: int)
    requires s != {}
    ensures least in s && forall p :: p in s ==> least <= p
  {
    assert (forall y :: y !in s) ==> s == {};
    least :| least in s;
    var rest := s;
    while rest != {}
      invariant rest <= s && least in s && forall p :: p in s && p !in rest ==> least <= p
      decreases rest
    {
      assert (forall y :: y !in rest) ==> rest == {};
      var p :| p in rest;
      if p < least { least := p; }
      rest := rest - {p};
    }
  }
}
