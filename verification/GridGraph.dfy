/** The synthetic road grid: two nested loops whose output is exactly the square lattice, every street both ways. */
module GridGraph {
  import opened Sorting
  import opened Texts
  import opened Bits

  datatype Cell = Cell(x: nat, y: nat)

  /** A one-way street between two crossings. */
  datatype Link = Link(a: Cell, b: Cell)

  datatype Edge = Edge(id: string, source: string, target: string)

  function Name(c: Cell): string { "n" + Decimal(c.x) + "_" + Decimal(c.y) }

  function Rendered(l: Link): Edge { Edge(Name(l.a) + "_" + Name(l.b), Name(l.a), Name(l.b)) }

  // ---------------------------------------------------------------- the loops

  function BothWays(a: Cell, b: Cell): seq<Link> { [Link(a, b), Link(b, a)] }

  /** The streets that leave a crossing eastward and northward. */
  function CellLinks(size: nat, c: Cell): seq<Link> {
    (if c.x + 1 >= size then [] else BothWays(c, Cell(c.x + 1, c.y)))
      + (if c.y + 1 >= size then [] else BothWays(c, Cell(c.x, c.y + 1)))
  }

  /** The first `m` crossings of a column. */
  function ColumnLinks(size: nat, x: nat, m: nat): seq<Link> {
    if m == 0 then [] else ColumnLinks(size, x, m - 1) + CellLinks(size, Cell(x, m - 1))
  }

  /** The first `n` columns. */
  function Links(size: nat, n: nat): seq<Link> {
    if n == 0 then [] else Links(size, n - 1) + ColumnLinks(size, n - 1, size)
  }

  function RenderAll(links: seq<Link>): (r: seq<Edge>)
    ensures |r| == |links| && forall i :: 0 <= i < |links| ==> r[i] == Rendered(links[i])
  {
    if links == [] then [] else [Rendered(links[0])] + RenderAll(links[1..])
  }

  function Edges(size: nat): seq<Edge> { RenderAll(Links(size, size)) }

  lemma {:induction false} RenderAppend(a: seq<Link>, b: seq<Link>)
    ensures RenderAll(a + b) == RenderAll(a) + RenderAll(b)
  {
  }

  function Nodes(size: nat): seq<string> {
    seq(size * size, i requires 0 <= i < size * size => Name(CellAt(size, i)))
  }

  function CellAt(size: nat, i: nat): Cell
    requires i < size * size
  {
    Place(size, i);
    Cell(i / size, i % size)
  }

  lemma Place(size: nat, i: nat)
    requires i < size * size
    ensures size > 0 && 0 <= i / size < size && 0 <= i % size < size && i == (i / size) * size + i % size
  {
  }

  lemma NothingRendered()
    ensures RenderAll([]) == []
  {
  }

  /** The innermost loop: the crossing to the east, then the one to the north, each way. */
  method AddStreets(size: nat, c: Cell, edges: seq<Edge>, ghost links: seq<Link>) returns (after: seq<Edge>)
    requires c.x < size && c.y < size && edges == RenderAll(links)
    ensures after == RenderAll(links + CellLinks(size, c))
  {
    hide RenderAll, Name;
    after := edges;
    assert links + [] == links;
    var ends := [Cell(c.x + 1, c.y), Cell(c.x, c.y + 1)];
    ghost var added: seq<Link> := [];
    var k := 0;
    while k < 2
      invariant 0 <= k <= 2 && after == RenderAll(links + added)
      invariant k == 0 ==> added == []
      invariant k == 1 ==> added == if c.x + 1 >= size then [] else BothWays(c, Cell(c.x + 1, c.y))
      invariant k == 2 ==> added == CellLinks(size, c)
    {
      if !(ends[k].x >= size || ends[k].y >= size) {
        var pair := BothWays(c, ends[k]);
        RenderAppend(links + added, pair);
        assert links + added + pair == links + (added + pair);
        after := after + [Rendered(pair[0]), Rendered(pair[1])];
        added := added + pair;
      }
      k := k + 1;
      assert added == if k == 1 then (if c.x + 1 >= size then [] else BothWays(c, Cell(c.x + 1, c.y)))
        else CellLinks(size, c);
    }
  }

  /** `grid`: the nodes by comprehension, the edges by nested loops. */
  method Grid(size: nat) returns (nodes: seq<string>, edges: seq<Edge>)
    ensures nodes == Nodes(size) && edges == Edges(size)
  {
    hide RenderAll, CellLinks;
    nodes := Nodes(size);
    edges := [];
    NothingRendered();
    for x := 0 to size
      invariant edges == RenderAll(Links(size, x))
    {
      assert Links(size, x) + ColumnLinks(size, x, 0) == Links(size, x);
      for y := 0 to size
        invariant edges == RenderAll(Links(size, x) + ColumnLinks(size, x, y))
      {
        ghost var links := Links(size, x) + ColumnLinks(size, x, y);
        edges := AddStreets(size, Cell(x, y), edges, links);
        assert links + CellLinks(size, Cell(x, y)) == Links(size, x) + ColumnLinks(size, x, y + 1);
      }
    }
  }

  // ---------------------------------------------------------------- how many streets

  lemma {:induction false} ColumnCount(size: nat, x: nat, m: nat)
    requires x < size && m <= size
    ensures |ColumnLinks(size, x, m)|
      == (if x + 1 < size then 2 * m else 0) + 2 * (if m == size && m > 0 then m - 1 else m)
  {
    if m > 0 { ColumnCount(size, x, m - 1); }
  }

  lemma {:induction false} LinkCount(size: nat, n: nat)
    requires n <= size
    ensures |Links(size, n)| == n * (4 * size - 2) - if n == size then 2 * size else 0
  {
    hide ColumnLinks;
    if n > 0 {
      ColumnCount(size, n - 1, size);
      LinkCount(size, n - 1);
      assert (n - 1) * (4 * size - 2) + (4 * size - 2) == n * (4 * size - 2);
    }
  }

  /** The grid has exactly 4 * size * (size - 1) one-way streets. */
  lemma EdgeCount(size: nat)
    requires size >= 1
    ensures |Edges(size)| == 4 * size * (size - 1)
  {
    LinkCount(size, size);
    assert size * (4 * size - 2) - 2 * size == 4 * size * (size - 1);
  }

  // ---------------------------------------------------------------- which streets

  predicate Inside(size: nat, c: Cell) { c.x < size && c.y < size }

  function Gap(a: int, b: int): nat { if a <= b then b - a else a - b }

  function Distance(a: Cell, b: Cell): nat { Gap(a.x, b.x) + Gap(a.y, b.y) }

  /** The crossing of a street that the loops visit: the lower or the left one. */
  function Corner(l: Link): Cell { if l.a.x < l.b.x || l.a.y < l.b.y then l.a else l.b }

  /** Streets join neighbouring crossings of the grid. */
  predicate Street(size: nat, l: Link) { Inside(size, l.a) && Inside(size, l.b) && Distance(l.a, l.b) == 1 }

  lemma CellLinksAre(size: nat, c: Cell, l: Link)
    requires Inside(size, c)
    ensures l in CellLinks(size, c) <==> Street(size, l) && Corner(l) == c
  {
    if Street(size, l) && Corner(l) == c {
      var links := CellLinks(size, c);
      var up := if c.x + 1 >= size then 0 else 2;
      if l.a.y == l.b.y {
        assert l == links[if l.a == c then 0 else 1];
      } else {
        assert l == links[if l.a == c then up else up + 1];
      }
    }
  }

  lemma {:induction false} ColumnLinksAre(size: nat, x: nat, m: nat, l: Link)
    requires x < size && m <= size
    ensures l in ColumnLinks(size, x, m) <==> Street(size, l) && Corner(l).x == x && Corner(l).y < m
  {
    hide CellLinks, Street, Corner;
    if m > 0 {
      ColumnLinksAre(size, x, m - 1, l);
      CellLinksAre(size, Cell(x, m - 1), l);
    }
  }

  lemma {:induction false} LinksAre(size: nat, n: nat, l: Link)
    requires n <= size
    ensures l in Links(size, n) <==> Street(size, l) && Corner(l).x < n
  {
    hide ColumnLinks, Street, Corner;
    if n > 0 {
      LinksAre(size, n - 1, l);
      ColumnLinksAre(size, n - 1, size, l);
      CornerInside(size, l);
    }
  }

  lemma CornerInside(size: nat, l: Link)
    ensures Street(size, l) ==> Inside(size, Corner(l))
  {
  }

  lemma {:induction false} ColumnDistinct(size: nat, x: nat, m: nat)
    requires x < size && m <= size
    ensures Distinct(ColumnLinks(size, x, m))
  {
    hide CellLinks;
    if m > 0 {
      var front, last := ColumnLinks(size, x, m - 1), CellLinks(size, Cell(x, m - 1));
      ColumnDistinct(size, x, m - 1);
      CellDistinct(size, Cell(x, m - 1));
      forall l | l in front ensures l !in last {
        ColumnLinksAre(size, x, m - 1, l);
        CellLinksAre(size, Cell(x, m - 1), l);
      }
      DistinctJoin(front, last);
    }
  }

  lemma CellDistinct(size: nat, c: Cell)
    ensures Distinct(CellLinks(size, c))
  {
  }

  lemma {:induction false} LinksDistinct(size: nat, n: nat)
    requires n <= size
    ensures Distinct(Links(size, n))
  {
    hide ColumnLinks, Street, Corner;
    if n > 0 {
      var front, last := Links(size, n - 1), ColumnLinks(size, n - 1, size);
      LinksDistinct(size, n - 1);
      ColumnDistinct(size, n - 1, size);
      forall l | l in front ensures l !in last {
        LinksAre(size, n - 1, l);
        ColumnLinksAre(size, n - 1, size, l);
      }
      DistinctJoin(front, last);
    }
  }

  // ---------------------------------------------------------------- names

  function IndexOf(t: string, mark: char): nat {
    if t == [] || t[0] == mark then 0 else 1 + IndexOf(t[1..], mark)
  }

  lemma {:induction false} MarkIsFound(a: string, mark: char, b: string)
    requires mark !in a
    ensures IndexOf(a + [mark] + b, mark) == |a|
  {
    var t := a + [mark] + b;
    if a != [] {
      assert t[0] == a[0] && a[0] in a && t[1..] == a[1..] + [mark] + b;
      MarkIsFound(a[1..], mark, b);
    }
  }

  /** Two texts joined by a separator that the first parts do not contain split back the same way. */
  lemma SplitAt(a: string, b: string, c: string, d: string, mark: char)
    requires mark !in a && mark !in c && a + [mark] + b == c + [mark] + d
    ensures a == c && b == d
  {
    var t, u := a + [mark] + b, c + [mark] + d;
    MarkIsFound(a, mark, b);
    MarkIsFound(c, mark, d);
    assert a == t[..|a|] && c == u[..|c|] && b == t[|a| + 1..] && d == u[|c| + 1..];
  }

  lemma DigitsOnly(n: nat, c: char)
    requires !IsDigit(c)
    ensures c !in Decimal(n)
  {
  }

  /** A name tells its crossing. */
  lemma NameInjective(a: Cell, b: Cell)
    requires Name(a) == Name(b)
    ensures a == b
  {
    hide Decimal;
    DigitsOnly(a.x, '_');
    DigitsOnly(b.x, '_');
    assert Name(a)[1..] == Decimal(a.x) + ['_'] + Decimal(a.y) && Name(b)[1..] == Decimal(b.x) + ['_'] + Decimal(b.y);
    SplitAt(Decimal(a.x), Decimal(a.y), Decimal(b.x), Decimal(b.y), '_');
    DecimalInjective(a.x, b.x);
    DecimalInjective(a.y, b.y);
  }

  /** An edge identifier tells both ends: the second name starts at the second `n`. */
  lemma IdInjective(k: Link, l: Link)
    requires Rendered(k).id == Rendered(l).id
    ensures k == l
  {
    hide Name, IndexOf;
    var a, b, c, d := Name(k.a), Name(k.b), Name(l.a), Name(l.b);
    var s, t := a + "_" + b, c + "_" + d;
    TailHasNoN(k.a);
    TailHasNoN(k.b);
    TailHasNoN(l.a);
    TailHasNoN(l.b);
    assert s[1..] == (a[1..] + "_") + ['n'] + b[1..] && t[1..] == (c[1..] + "_") + ['n'] + d[1..];
    SplitAt(a[1..] + "_", b[1..], c[1..] + "_", d[1..], 'n');
    assert (a[1..] + "_")[..|a| - 1] == a[1..] && (c[1..] + "_")[..|c| - 1] == c[1..];
    assert a == ['n'] + a[1..] && c == ['n'] + c[1..] && b == ['n'] + b[1..] && d == ['n'] + d[1..];
    NameInjective(k.a, l.a);
    NameInjective(k.b, l.b);
  }

  lemma TailHasNoN(c: Cell)
    ensures Name(c) != [] && Name(c)[0] == 'n' && 'n' !in Name(c)[1..]
  {
    hide Decimal;
    DigitsOnly(c.x, 'n');
    DigitsOnly(c.y, 'n');
    assert Name(c)[1..] == Decimal(c.x) + "_" + Decimal(c.y);
  }

  // ---------------------------------------------------------------- the graph

  /** Exactly one edge for every ordered pair of neighbouring crossings, under identifiers that are all different. */
  lemma EdgesAreStreets(size: nat)
    ensures forall l :: Street(size, l) <==> Rendered(l) in Edges(size)
    ensures forall e :: e in Edges(size) ==> exists l :: Street(size, l) && e == Rendered(l)
    ensures forall i, j :: 0 <= i < j < |Edges(size)| ==> Edges(size)[i].id != Edges(size)[j].id
  {
    hide Name, Links;
    var links, edges := Links(size, size), Edges(size);
    forall l ensures l in links <==> Street(size, l) { LinksAre(size, size, l); CornerInside(size, l); }
    forall l ensures Street(size, l) <==> Rendered(l) in edges {
      if l in links {
        var i :| 0 <= i < |links| && links[i] == l;
        assert edges[i] == Rendered(l);
      }
      if Rendered(l) in edges {
        var i :| 0 <= i < |edges| && edges[i] == Rendered(l);
        IdInjective(links[i], l);
      }
    }
    forall e | e in edges ensures exists l :: Street(size, l) && e == Rendered(l) {
      var i :| 0 <= i < |edges| && edges[i] == e;
      assert links[i] in links;
    }
    LinksDistinct(size, size);
    forall i, j | 0 <= i < j < |edges| ensures edges[i].id != edges[j].id {
      if edges[i].id == edges[j].id { IdInjective(links[i], links[j]); }
    }
  }

  lemma NodesAreCells(size: nat, c: Cell)
    requires Inside(size, c)
    ensures Name(c) in Nodes(size)
  {
    hide Name;
    var i := c.x * size + c.y;
    ProductGrows(c.x + 1, size, size);
    assert (c.x + 1) * size == c.x * size + size;
    Place(size, i);
    SamePlace(size, c, i);
    assert Nodes(size)[i] == Name(CellAt(size, i));
  }

  lemma SamePlace(size: nat, c: Cell, i: nat)
    requires Inside(size, c) && i == c.x * size + c.y && i < size * size
    ensures CellAt(size, i) == c
  {
    DivMod(c.x, size, c.y);
  }

  /** The nodes are the crossings of the square, each once. */
  lemma NodesAreTheSquare(size: nat)
    ensures |Nodes(size)| == size * size
    ensures forall i, j :: 0 <= i < j < |Nodes(size)| ==> Nodes(size)[i] != Nodes(size)[j]
    ensures forall c :: Inside(size, c) ==> Name(c) in Nodes(size)
    ensures forall t :: t in Nodes(size) ==> exists c :: Inside(size, c) && t == Name(c)
  {
    hide Name;
    var nodes := Nodes(size);
    forall i, j | 0 <= i < j < |nodes| ensures nodes[i] != nodes[j] {
      Place(size, i);
      Place(size, j);
      if nodes[i] == nodes[j] { NameInjective(CellAt(size, i), CellAt(size, j)); }
    }
    forall c | Inside(size, c) ensures Name(c) in nodes { NodesAreCells(size, c); }
    forall t | t in nodes ensures exists c :: Inside(size, c) && t == Name(c) {
      var i :| 0 <= i < |nodes| && nodes[i] == t;
      Place(size, i);
      assert Inside(size, CellAt(size, i));
    }
  }

  /** Both ends of every edge are nodes, and every edge has its reverse. */
  lemma EdgesAreValidAndReversible(size: nat, e: Edge)
    requires e in Edges(size)
    ensures e.source in Nodes(size) && e.target in Nodes(size)
    ensures exists r :: r in Edges(size) && r.source == e.target && r.target == e.source
  {
    hide Name, Edges, Nodes;
    EdgesAreStreets(size);
    var l :| Street(size, l) && e == Rendered(l);
    NodesAreCells(size, l.a);
    NodesAreCells(size, l.b);
    assert Street(size, Link(l.b, l.a)) && Rendered(Link(l.b, l.a)) in Edges(size);
  }

  // ---------------------------------------------------------------- routes

  /** Consecutive edges from one node to another. */
  predicate Route(edges: seq<Edge>, p: seq<Edge>, from: string, to: string) {
    if p == [] then from == to else p[0] in edges && p[0].source == from && Route(edges, p[1..], p[0].target, to)
  }

  /** One step nearer. */
  function Toward(a: Cell, b: Cell): Cell
    requires a != b
  {
    if a.x < b.x then Cell(a.x + 1, a.y) else if a.x > b.x then Cell(a.x - 1, a.y)
      else if a.y < b.y then Cell(a.x, a.y + 1) else Cell(a.x, a.y - 1)
  }

  /** Between any two crossings there is a route as long as their distance. */
  lemma {:induction false} RouteExists(size: nat, a: Cell, b: Cell) returns (p: seq<Edge>)
    requires Inside(size, a) && Inside(size, b)
    ensures Route(Edges(size), p, Name(a), Name(b)) && |p| == Distance(a, b)
    decreases Distance(a, b)
  {
    hide Name, Edges;
    if a == b {
      p := [];
    } else {
      var next := Toward(a, b);
      var rest := RouteExists(size, next, b);
      var step := Rendered(Link(a, next));
      EdgesAreStreets(size);
      assert Street(size, Link(a, next));
      p := [step] + rest;
      assert p[1..] == rest;
    }
  }

  /** No route is shorter than the distance. */
  lemma {:induction false} RouteIsLong(size: nat, p: seq<Edge>, a: Cell, b: Cell)
    requires Route(Edges(size), p, Name(a), Name(b))
    ensures |p| >= Distance(a, b)
    decreases |p|
  {
    hide Name, Edges;
    if p == [] {
      NameInjective(a, b);
    } else {
      EdgesAreStreets(size);
      var l :| Street(size, l) && p[0] == Rendered(l);
      NameInjective(l.a, a);
      RouteIsLong(size, p[1..], l.b, b);
      assert Distance(a, b) <= 1 + Distance(l.b, b);
    }
  }

  /** Some route has `n` edges and none has fewer. */
  ghost predicate Shortest(edges: seq<Edge>, from: string, to: string, n: nat) {
    && (exists p :: Route(edges, p, from, to) && |p| == n)
    && (forall p :: Route(edges, p, from, to) ==> |p| >= n)
  }

  /** Every crossing reaches every other, and the shortest route is as long as their distance. */
  lemma ShortestIsDistance(size: nat, a: Cell, b: Cell)
    requires Inside(size, a) && Inside(size, b)
    ensures Shortest(Edges(size), Name(a), Name(b), Distance(a, b))
  {
    hide Name, Edges;
    var p := RouteExists(size, a, b);
    forall q | Route(Edges(size), q, Name(a), Name(b)) ensures |q| >= Distance(a, b) { RouteIsLong(size, q, a, b); }
  }

  /** Between opposite corners it has 2 * (size - 1) edges. */
  lemma CornerRoute(size: nat)
    requires size >= 1
    ensures Shortest(Edges(size), Name(Cell(0, 0)), Name(Cell(size - 1, size - 1)), 2 * (size - 1))
  {
    hide Name, Edges, Shortest;
    ShortestIsDistance(size, Cell(0, 0), Cell(size - 1, size - 1));
  }
}
