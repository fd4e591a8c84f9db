/** The managed navigation block of README files: inserting or refreshing it, and why publishing twice changes
    nothing. */
module ReadmeGuide {
  import opened Wrappers

  // ---------------------------------------------------------------- text

  predicate Occurs(t: string, p: string, i: int) {
    0 <= i && i + |p| <= |t| && t[i..i + |p|] == p
  }

  /** The first occurrence at or after `from`. */
  function Find(t: string, p: string, from: nat): (r: Option<nat>)
    ensures r.Some? ==> from <= r.value && Occurs(t, p, r.value)
    ensures forall i :: from <= i < (if r.Some? then r.value else |t|) ==> !Occurs(t, p, i)
    decreases |t| - from
  {
    if from + |p| > |t| then None else if Occurs(t, p, from) then Some(from) else Find(t, p, from + 1)
  }

  lemma FindIs(t: string, p: string, from: nat, k: nat)
    requires from <= k && Occurs(t, p, k) && |p| > 0 && forall i :: from <= i < k ==> !Occurs(t, p, i)
    ensures Find(t, p, from) == Some(k)
  {
  }

  lemma FindsNone(t: string, p: string, from: nat)
    requires |p| > 0 && forall i :: from <= i < |t| ==> !Occurs(t, p, i)
    ensures Find(t, p, from) == None
  {
  }

  /** `str.isspace` for one character. */
  predicate IsSpace(c: char) {
    var n := c as int;
    || 9 <= n <= 13 || 28 <= n <= 32 || n == 0x85 || n == 0xa0 || n == 0x1680 || 0x2000 <= n <= 0x200a
    || n == 0x2028 || n == 0x2029 || n == 0x202f || n == 0x205f || n == 0x3000
  }

  /** `rstrip`. */
  function Strip(t: string): string {
    if t != [] && IsSpace(t[|t| - 1]) then Strip(t[..|t| - 1]) else t
  }

  /** The published form: no trailing whitespace but one newline. */
  function Norm(t: string): string { Strip(t) + "\n" }

  // ---------------------------------------------------------------- the managed block

  const START := "<!-- LEARNING_GUIDE_START -->"
  const END := "<!-- LEARNING_GUIDE_END -->"

  /** The two bodies, as the pieces they are made of. */
  const ENGLISH_TITLE := "## Code reading guide\n\n"
  const ENGLISH_1 := "[Learn through a concrete "
  const ENGLISH_2 := "example: architecture, "
  const ENGLISH_3 := "state changes and annotated "
  const ENGLISH_4 := "source (Chinese)]"
  const CHINESE_TITLE := "## 从这里开始读代码\n\n"
  const CHINESE_1 := "[跟着一个案例读懂系统："
  const CHINESE_2 := "架构、状态变化与关键代码详解]"
  const TARGET := "(docs/learning-guide_cn.md)"

  const ENGLISH := ENGLISH_TITLE + ENGLISH_1 + ENGLISH_2 + ENGLISH_3 + ENGLISH_4 + TARGET + "."
  const CHINESE := CHINESE_TITLE + CHINESE_1 + CHINESE_2 + TARGET + "。"

  function Body(english: bool): string { if english then ENGLISH else CHINESE }

  function Block(body: string): string { START + "\n" + body + "\n" + END }

  /** `re.sub` of every shortest START ... END stretch. */
  function Refresh(t: string, body: string): string
    decreases |t|
  {
    match Find(t, START, 0)
    case None => t
    case Some(i) =>
      match Find(t, END, i + |START|)
      case None => t
      case Some(j) => t[..i] + Block(body) + Refresh(t[j + |END|..], body)
  }

  /** After the first line, or before everything when there is only one. */
  function FirstLine(t: string): (k: nat)
    ensures k <= |t|
  {
    match Find(t, "\n", 0)
    case None => 0
    case Some(i) => i + 1
  }

  /** `readme_content`. */
  function Content(t: string, body: string): string {
    if Find(t, START, 0).Some? then Refresh(t, body)
    else t[..FirstLine(t)] + "\n" + Block(body) + "\n" + t[FirstLine(t)..]
  }

  function Published(t: string, body: string): string { Norm(Content(t, body)) }

  /** What `verify_links` requires of a README before anything is written. */
  predicate HasBlock(t: string) {
    Find(t, START, 0).Some? && Find(t, END, Find(t, START, 0).value + |START|).Some?
  }

  // ---------------------------------------------------------------- markers cannot overlap

  /** A marker: `<` first and nowhere else, no line break, ending in something visible. */
  ghost predicate Marker(p: string) {
    |p| > 0 && p[0] == '<' && (forall k :: 0 < k < |p| ==> p[k] != '<') && (forall k :: 0 <= k < |p| ==> p[k] != '\n')
      && !IsSpace(p[|p| - 1])
  }

  predicate Plain(body: string) { '<' !in body }

  lemma MarkersAreMarkers()
    ensures Marker(START) && Marker(END) && START != END && |START| > |END|
  {
  }

  lemma PlainJoin(a: string, b: string)
    requires Plain(a) && Plain(b)
    ensures Plain(a + b)
  {
  }

  lemma TitlesArePlain()
    ensures Plain(ENGLISH_TITLE) && Plain(CHINESE_TITLE)
  {
  }

  lemma EnglishIsPlain()
    ensures Plain(ENGLISH_1) && Plain(ENGLISH_2) && Plain(ENGLISH_3) && Plain(ENGLISH_4)
  {
  }

  lemma ChineseIsPlain()
    ensures Plain(CHINESE_1) && Plain(CHINESE_2) && Plain(TARGET) && Plain(".") && Plain("。")
  {
  }

  lemma BodyIsPlain(english: bool)
    ensures Plain(Body(english))
  {
    hide Plain;
    TitlesArePlain();
    EnglishIsPlain();
    ChineseIsPlain();
    PlainJoin(ENGLISH_TITLE, ENGLISH_1);
    PlainJoin(ENGLISH_TITLE + ENGLISH_1, ENGLISH_2);
    PlainJoin(ENGLISH_TITLE + ENGLISH_1 + ENGLISH_2, ENGLISH_3);
    PlainJoin(ENGLISH_TITLE + ENGLISH_1 + ENGLISH_2 + ENGLISH_3, ENGLISH_4);
    PlainJoin(ENGLISH_TITLE + ENGLISH_1 + ENGLISH_2 + ENGLISH_3 + ENGLISH_4, TARGET);
    PlainJoin(ENGLISH_TITLE + ENGLISH_1 + ENGLISH_2 + ENGLISH_3 + ENGLISH_4 + TARGET, ".");
    PlainJoin(CHINESE_TITLE, CHINESE_1);
    PlainJoin(CHINESE_TITLE + CHINESE_1, CHINESE_2);
    PlainJoin(CHINESE_TITLE + CHINESE_1 + CHINESE_2, TARGET);
    PlainJoin(CHINESE_TITLE + CHINESE_1 + CHINESE_2 + TARGET, "。");
  }

  // ---------------------------------------------------------------- occurrences

  /** A marker cannot straddle the start of a line or of another marker. */
  lemma NoStraddle(g: string, x: string, p: string, i: int)
    requires Marker(p) && x != [] && (x[0] == '<' || x[0] == '\n') && Occurs(g + x, p, i) && i < |g|
    ensures Occurs(g, p, i)
  {
    var t := g + x;
    if |g| - i < |p| { CharacterOf(t, p, i, |g| - i); }
    assert t[i..i + |p|] == g[i..i + |p|];
  }

  lemma CharacterOf(t: string, p: string, i: int, n: int)
    requires Occurs(t, p, i) && 0 <= n < |p|
    ensures t[i + n] == p[n]
  {
    assert t[i..i + |p|][n] == t[i + n];
  }

  lemma NewlineEndAddsNothing(a: string, p: string, i: int)
    requires Marker(p)
    ensures Occurs(a + "\n", p, i) ==> Occurs(a, p, i)
  {
    var t := a + "\n";
    if Occurs(t, p, i) {
      assert t[i..i + |p|][|p| - 1] == t[i + |p| - 1];
      assert i + |p| <= |a|;
      OccursInPrefix(t, a, |a|, p, i);
    }
  }

  lemma NotAtNewline(x: string, p: string)
    requires Marker(p) && x != [] && x[0] == '\n'
    ensures !Occurs(x, p, 0)
  {
    assert |p| <= |x| ==> x[0..|p|][0] == x[0];
  }

  lemma PrefixHasNone(t: string, p: string, k: nat)
    requires k <= |t| && |p| > 0 && Find(t, p, 0).None?
    ensures forall i :: !Occurs(t[..k], p, i)
  {
    hide Find;
    forall i ensures !Occurs(t[..k], p, i) {
      if 0 <= i && i + |p| <= k {
        OccursInPrefix(t, t[..k], k, p, i);
        NoneFound(t, p, i);
      }
    }
  }

  lemma SuffixHasNone(t: string, p: string, k: nat)
    requires k <= |t| && |p| > 0 && Find(t, p, 0).None?
    ensures forall i :: !Occurs(t[k..], p, i)
  {
    hide Find;
    assert t[..k] + t[k..] == t;
    forall i ensures !Occurs(t[k..], p, i) {
      if 0 <= i && i + |p| <= |t| - k {
        OccursLater(t[..k], t[k..], p, i + k);
        NoneFound(t, p, i + k);
      }
    }
  }

  lemma OccursLater(g: string, x: string, p: string, i: int)
    requires i >= |g|
    ensures Occurs(g + x, p, i) <==> Occurs(x, p, i - |g|)
  {
    if i + |p| <= |g + x| { assert (g + x)[i..i + |p|] == x[i - |g|..i - |g| + |p|]; }
  }

  lemma OccursInPrefix(t: string, u: string, n: nat, p: string, i: int)
    requires n <= |t| && n <= |u| && t[..n] == u[..n] && i + |p| <= n
    ensures Occurs(t, p, i) <==> Occurs(u, p, i)
  {
    if i >= 0 { assert t[i..i + |p|] == t[..n][i..i + |p|] == u[i..i + |p|]; }
  }

  /** In a text whose first block is ours, the search finds exactly that block. */
  lemma BlockIsFound(g: string, body: string, x: string)
    requires Plain(body) && Find(g, START, 0).None?
    ensures var t := g + Block(body) + x;
      Find(t, START, 0) == Some(|g|) && Find(t, END, |g| + |START|) == Some(|g| + |START| + |body| + 2)
  {
    MarkersAreMarkers();
    BlockFound(g, START, body, END, x);
  }

  lemma BlockFound(g: string, s: string, body: string, e: string, x: string)
    requires Plain(body) && Find(g, s, 0).None? && Marker(s) && Marker(e)
    ensures var t := g + (s + "\n" + body + "\n" + e) + x;
      Find(t, s, 0) == Some(|g|) && Find(t, e, |g| + |s|) == Some(|g| + |s| + |body| + 2)
  {
    hide *;
    BlockStart(g, s, body, e, x);
    BlockEnd(g, s, body, e, x);
  }

  lemma BlockStart(g: string, s: string, body: string, e: string, x: string)
    requires Find(g, s, 0).None? && Marker(s)
    ensures Find(g + (s + "\n" + body + "\n" + e) + x, s, 0) == Some(|g|)
  {
    hide *;
    BlockLayout(g, s, body, e, x);
    StartIsFound(g + (s + "\n" + body + "\n" + e) + x, g, s, ("\n" + body + "\n") + (e + x));
  }

  lemma BlockEnd(g: string, s: string, body: string, e: string, x: string)
    requires Plain(body) && Marker(e)
    ensures Find(g + (s + "\n" + body + "\n" + e) + x, e, |g| + |s|) == Some(|g| + |s| + |body| + 2)
  {
    hide *;
    BlockLayout(g, s, body, e, x);
    EndIsFound(g + (s + "\n" + body + "\n" + e) + x, g + s, body, e, x);
  }

  lemma BlockLayout(g: string, s: string, body: string, e: string, x: string)
    ensures var inner := "\n" + body + "\n"; var t := g + (s + "\n" + body + "\n" + e) + x;
      t == g + (s + (inner + (e + x))) && t == (g + s) + inner + (e + x)
  {
    var inner := "\n" + body + "\n";
    assert s + "\n" + body + "\n" + e == s + inner + e;
    Regroup(g, s, inner, e, x);
  }

  lemma Regroup(g: string, s: string, inner: string, e: string, x: string)
    ensures g + (s + inner + e) + x == g + (s + (inner + (e + x))) == (g + s) + inner + (e + x)
  {
    assert s + inner + e + x == s + (inner + (e + x));
    assert g + (s + inner + e) + x == g + (s + inner + e + x);
    assert (g + s) + (inner + (e + x)) == g + (s + (inner + (e + x)));
    assert (g + s) + inner + (e + x) == (g + s) + (inner + (e + x));
  }

  lemma StartIsFound(t: string, g: string, p: string, rest: string)
    requires Find(g, p, 0).None? && Marker(p) && t == g + (p + rest)
    ensures Find(t, p, 0) == Some(|g|)
  {
    hide Find;
    var y := p + rest;
    assert y[..|p|] == p && y[0] == p[0];
    forall i | 0 <= i < |g| ensures !Occurs(g + y, p, i) {
      if Occurs(g + y, p, i) {
        NoStraddle(g, y, p, i);
        NoneFound(g, p, i);
      }
    }
    OccursLater(g, y, p, |g|);
    FindIs(g + y, p, 0, |g|);
  }

  lemma NoneFound(g: string, p: string, i: int)
    requires Find(g, p, 0).None?
    ensures 0 <= i < |g| ==> !Occurs(g, p, i)
  {
  }

  lemma EndIsFound(t: string, h: string, body: string, e: string, x: string)
    requires Plain(body) && Marker(e) && t == h + ("\n" + body + "\n") + (e + x)
    ensures Find(t, e, |h|) == Some(|h| + |body| + 2)
  {
    hide Find;
    var inner := "\n" + body + "\n";
    var k := |h| + |inner|;
    forall i | |h| <= i < k ensures !Occurs(t, e, i) {
      assert t[i] == inner[i - |h|] && inner[i - |h|] != '<' by {
        if 0 < i - |h| <= |body| { assert inner[i - |h|] == body[i - |h| - 1] && body[i - |h| - 1] in body; }
      }
      assert i + |e| <= |t| ==> t[i..i + |e|][0] == t[i];
    }
    OccursLater(h + inner, e + x, e, k);
    assert (e + x)[0..|e|] == e;
    FindIs(t, e, |h|, k);
  }

  /** Refreshing keeps our block and goes on behind it. */
  lemma RefreshPastBlock(g: string, body: string, x: string)
    requires Plain(body) && Find(g, START, 0).None?
    ensures Refresh(g + Block(body) + x, body) == g + Block(body) + Refresh(x, body)
  {
    hide Find;
    BlockIsFound(g, body, x);
    var t := g + Block(body) + x;
    var j := |g| + |START| + |body| + 2;
    assert t[..|g|] == g && t[j + |END|..] == x;
  }

  // ---------------------------------------------------------------- trailing whitespace

  lemma {:induction false} StripPast(u: string, x: string)
    requires u != [] && !IsSpace(u[|u| - 1])
    ensures Strip(u + x) == u + Strip(x)
    decreases |x|
  {
    if x == [] {
      assert u + x == u;
    } else if IsSpace(x[|x| - 1]) {
      assert (u + x)[..|u + x| - 1] == u + x[..|x| - 1];
      StripPast(u, x[..|x| - 1]);
    }
  }

  lemma {:induction false} StripIsPrefix(t: string)
    ensures |Strip(t)| <= |t| && Strip(t) == t[..|Strip(t)|]
    ensures Strip(t) != [] ==> !IsSpace(Strip(t)[|Strip(t)| - 1])
    ensures forall i :: |Strip(t)| <= i < |t| ==> IsSpace(t[i])
  {
    if t != [] && IsSpace(t[|t| - 1]) { StripIsPrefix(t[..|t| - 1]); }
  }

  lemma NormTwice(t: string)
    ensures Norm(Norm(t)) == Norm(t)
  {
    StripIsPrefix(t);
    var s := Strip(t);
    assert Strip(s) == s && (s + "\n")[|s|] == '\n';
    assert (s + "\n")[..|s|] == s;
  }

  /** A marker that occurs survives the trimming, and none appears by it. */
  lemma NormKeepsOccurrences(t: string, p: string, i: int)
    requires Marker(p)
    ensures Occurs(Norm(t), p, i) <==> Occurs(t, p, i)
  {
    StripIsPrefix(t);
    var s, n := Strip(t), Norm(t);
    if Occurs(t, p, i) {
      assert t[i..i + |p|][|p| - 1] == t[i + |p| - 1] == p[|p| - 1];
      assert i + |p| <= |s|;
      OccursInPrefix(t, n, |s|, p, i);
    }
    if Occurs(n, p, i) {
      assert n[i..i + |p|][|p| - 1] == n[i + |p| - 1] == p[|p| - 1];
      assert i + |p| <= |s|;
      OccursInPrefix(t, n, |s|, p, i);
    }
  }

  lemma NormFinds(t: string, p: string, from: nat)
    requires Marker(p)
    ensures Find(Norm(t), p, from) == Find(t, p, from)
  {
    hide Find, Norm;
    forall i: int ensures Occurs(Norm(t), p, i) <==> Occurs(t, p, i) { NormKeepsOccurrences(t, p, i); }
    SameFind(t, Norm(t), p, from);
  }

  lemma SameFind(t: string, u: string, p: string, from: nat)
    requires |p| > 0 && forall i: int :: Occurs(u, p, i) <==> Occurs(t, p, i)
    ensures Find(u, p, from) == Find(t, p, from)
  {
    var a, b := Find(t, p, from), Find(u, p, from);
    if a.Some? { FindIs(u, p, from, a.value); }
    if b.Some? { FindIs(t, p, from, b.value); }
  }

  lemma BlockEndsVisibly(g: string, body: string)
    ensures var u := g + Block(body); u != [] && !IsSpace(u[|u| - 1])
  {
    var u := g + Block(body);
    assert u[|u| - 1] == END[|END| - 1];
  }

  /** Trimming after a block trims only what follows it. */
  lemma NormPastBlock(g: string, body: string, x: string)
    ensures Norm(g + Block(body) + x) == g + Block(body) + Norm(x)
  {
    BlockEndsVisibly(g, body);
    StripPast(g + Block(body), x);
  }

  // ---------------------------------------------------------------- publishing is a fixed point

  lemma {:induction false} RefreshSettles(t: string, body: string)
    requires Plain(body)
    ensures Refresh(Norm(Refresh(t, body)), body) == Norm(Refresh(t, body))
    decreases |t|
  {
    hide Find, Block, Norm;
    MarkersAreMarkers();
    var i := Find(t, START, 0);
    if i.None? {
      NormFinds(t, START, 0);
    } else {
      var j := Find(t, END, i.value + |START|);
      if j.None? {
        NormFinds(t, START, 0);
        NormFinds(t, END, i.value + |START|);
      } else {
        var g, r := t[..i.value], t[j.value + |END|..];
        RefreshSettles(r, body);
        NoStartBefore(t, i.value);
        NormPastBlock(g, body, Refresh(r, body));
        RefreshPastBlock(g, body, Norm(Refresh(r, body)));
      }
    }
  }

  lemma NoStartBefore(t: string, i: nat)
    requires Find(t, START, 0) == Some(i)
    ensures i <= |t| && Find(t[..i], START, 0) == None
  {
    var g := t[..i];
    forall k | 0 <= k < |g| ensures !Occurs(g, START, k) {
      if Occurs(g, START, k) { OccursInPrefix(t, g, i, START, k); }
    }
    FindsNone(g, START, 0);
  }

  /** The position right behind the first line break; the very beginning of a text without one. */
  predicate BehindFirstLine(t: string, k: int) {
    0 <= k <= |t| && if k == 0 then '\n' !in t else t[k - 1] == '\n' && '\n' !in t[..k - 1]
  }

  lemma FirstLineIsBehind(t: string)
    ensures BehindFirstLine(t, FirstLine(t))
  {
    hide Find;
    var found := Find(t, "\n", 0);
    var i := if found.Some? then found.value else |t|;
    forall n | 0 <= n < i ensures t[n] != '\n' {
      assert !Occurs(t, "\n", n);
      assert t[n..n + 1] == [t[n]];
    }
    if found.Some? { CharacterOf(t, "\n", i, 0); }
  }

  /** Where a first insertion puts the block: no marker before it, none after it. */
  lemma InsertionParts(t: string, body: string) returns (g: string, x: string)
    requires Find(t, START, 0).None?
    ensures Content(t, body) == g + Block(body) + x && Find(g, START, 0) == None && Find(x, START, 0) == None
    ensures exists k :: BehindFirstLine(t, k) && g == t[..k] + "\n" && x == "\n" + t[k..]
  {
    hide Find, Block;
    MarkersAreMarkers();
    FirstLineIsBehind(t);
    var k := FirstLine(t);
    g, x := t[..k] + "\n", "\n" + t[k..];
    assert Content(t, body) == g + Block(body) + x;
    LinesAddNone(t, START, k);
    FindsNone(g, START, 0);
    FindsNone(x, START, 0);
  }

  lemma LinesAddNone(t: string, p: string, k: nat)
    requires k <= |t| && Marker(p) && Find(t, p, 0).None?
    ensures forall i :: !Occurs(t[..k] + "\n", p, i) && !Occurs("\n" + t[k..], p, i)
  {
    hide Find;
    PrefixHasNone(t, p, k);
    SuffixHasNone(t, p, k);
    forall i ensures !Occurs(t[..k] + "\n", p, i) && !Occurs("\n" + t[k..], p, i) {
      NewlineEndAddsNothing(t[..k], p, i);
      NotAtNewline("\n" + t[k..], p);
      if i >= 1 { OccursLater("\n", t[k..], p, i); }
    }
  }

  lemma PublishedHasStart(t: string, body: string)
    requires Plain(body)
    ensures Find(Published(t, body), START, 0).Some?
      && (Find(t, START, 0).Some? ==> Content(t, body) == Refresh(t, body))
  {
    hide Find, Block, Norm, Refresh;
    MarkersAreMarkers();
    NormFinds(Content(t, body), START, 0);
    var i := Find(t, START, 0);
    if i.None? {
      var g, x := InsertionParts(t, body);
      BlockIsFound(g, body, x);
    } else {
      RefreshedHasStart(t, body);
    }
  }

  lemma RefreshedHasStart(t: string, body: string)
    requires Plain(body) && Find(t, START, 0).Some?
    ensures Find(Refresh(t, body), START, 0).Some?
  {
    hide Find, Block;
    var i := Find(t, START, 0).value;
    var j := Find(t, END, i + |START|);
    if j.Some? {
      NoStartBefore(t, i);
      BlockIsFound(t[..i], body, Refresh(t[j.value + |END|..], body));
    }
  }

  /** Publishing a published README changes nothing, for every text, unmatched and repeated markers included. */
  lemma PublishingIsAFixedPoint(t: string, body: string)
    requires Plain(body)
    ensures Published(Published(t, body), body) == Published(t, body)
  {
    hide Find, Block, Norm, Refresh, Content;
    PublishingContent(t, body);
    NormTwice(Content(t, body));
  }

  lemma NothingToRefresh(t: string, body: string)
    requires Find(t, START, 0).None?
    ensures Refresh(t, body) == t
  {
  }

  // ---------------------------------------------------------------- nothing else changes

  /** The text outside the managed stretches, piece by piece. */
  function Gaps(t: string): (r: seq<string>)
    ensures r != []
    decreases |t|
  {
    match Find(t, START, 0)
    case None => [t]
    case Some(i) =>
      match Find(t, END, i + |START|)
      case None => [t]
      case Some(j) => [t[..i]] + Gaps(t[j + |END|..])
  }

  /** The pieces with the block between each two. */
  function Joined(gaps: seq<string>, block: string): string
    requires gaps != []
  {
    if |gaps| == 1 then gaps[0] else gaps[0] + block + Joined(gaps[1..], block)
  }

  /** The pieces with the last one trimmed. */
  function Trimmed(gaps: seq<string>): seq<string>
    requires gaps != []
  {
    gaps[..|gaps| - 1] + [Norm(gaps[|gaps| - 1])]
  }

  /** Refreshing writes exactly one current block for every stretch and leaves every piece between as it was. */
  lemma {:induction false} RefreshKeepsGaps(t: string, body: string)
    requires Plain(body)
    ensures Refresh(t, body) == Joined(Gaps(t), Block(body)) && Gaps(Refresh(t, body)) == Gaps(t)
    decreases |t|
  {
    hide Find, Block;
    var i := Find(t, START, 0);
    if i.Some? {
      var j := Find(t, END, i.value + |START|);
      if j.Some? {
        var g, r := t[..i.value], t[j.value + |END|..];
        RefreshKeepsGaps(r, body);
        NoStartBefore(t, i.value);
        GapsPastBlock(g, body, Refresh(r, body));
        assert Gaps(t)[1..] == Gaps(r);
      }
    }
  }

  /** A text as its outside pieces with the managed stretches between them. */
  function Woven(gaps: seq<string>, stretches: seq<string>): string
    requires |gaps| == |stretches| + 1
  {
    if stretches == [] then gaps[0] else gaps[0] + (START + (stretches[0] + (END + Woven(gaps[1..], stretches[1..]))))
  }

  /** No start marker before a stretch begins, no end marker inside it, no complete block behind the last. */
  ghost predicate Outside(gaps: seq<string>, stretches: seq<string>) {
    && |gaps| == |stretches| + 1 && !HasBlock(gaps[|stretches|])
    && forall i :: 0 <= i < |stretches| ==> Find(gaps[i], START, 0).None? && Find(stretches[i], END, 0).None?
  }

  lemma {:induction false} OutsideCons(g: string, gaps: seq<string>, m: string, stretches: seq<string>)
    requires Find(g, START, 0).None? && Find(m, END, 0).None? && Outside(gaps, stretches)
    ensures Outside([g] + gaps, [m] + stretches)
    ensures Woven([g] + gaps, [m] + stretches) == g + (START + (m + (END + Woven(gaps, stretches))))
  {
    hide Find, HasBlock;
  }

  /** Every text is its pieces with the shortest stretches between, */
  lemma {:induction false} GapsAreOutside(t: string) returns (stretches: seq<string>)
    ensures Outside(Gaps(t), stretches) && t == Woven(Gaps(t), stretches)
    decreases |t|
  {
    hide Find, Occurs, Woven, Gaps, HasBlock, Outside;
    if HasBlock(t) {
      var m, e := FirstStretch(t);
      var rest := GapsAreOutside(t[e..]);
      OutsideCons(t[..e - |END| - |m| - |START|], Gaps(t[e..]), m, rest);
      stretches := [m] + rest;
    } else {
      OneGap(t);
      stretches := [];
      WovenAlone(t);
    }
  }

  lemma WovenAlone(t: string)
    requires !HasBlock(t)
    ensures Woven([t], []) == t && Outside([t], [])
  {
  }

  lemma FirstStretch(t: string) returns (m: string, e: nat)
    requires HasBlock(t)
    ensures Find(m, END, 0).None? && |START| + |m| + |END| <= e <= |t|
    ensures var g := t[..e - |END| - |m| - |START|];
      Find(g, START, 0).None? && Gaps(t) == [g] + Gaps(t[e..]) && t == g + (START + (m + (END + t[e..])))
  {
    hide Find, Gaps;
    var i := Find(t, START, 0).value;
    var j := Find(t, END, i + |START|).value;
    e, m := j + |END|, t[i + |START|..j];
    MarkersAreMarkers();
    GapsStep(t, i, e);
    NoStartBefore(t, i);
    NoMarkerInside(t, END, i + |START|, j);
    CutTwice(t, START, i, END, j);
  }

  lemma CutTwice(t: string, s: string, i: nat, e: string, j: nat)
    requires Occurs(t, s, i) && Occurs(t, e, j) && 0 <= i && i + |s| <= j && j + |e| <= |t|
    ensures t == t[..i] + (s + (t[i + |s|..j] + (e + t[j + |e|..])))
  {
    CutAt(t, s, i);
    CutBehind(t, i + |s|, e, j);
  }

  lemma CutBehind(t: string, from: nat, p: string, j: nat)
    requires from <= j && j + |p| <= |t| && Occurs(t, p, j)
    ensures t[from..] == t[from..j] + (p + t[j + |p|..])
  {
    assert t[j..] == p + t[j + |p|..];
  }

  lemma CutAt(t: string, p: string, i: nat)
    requires Occurs(t, p, i)
    ensures t == t[..i] + (p + t[i + |p|..])
  {
  }

  lemma NoMarkerInside(t: string, p: string, from: nat, j: nat)
    requires |p| > 0 && from <= j <= |t| && Find(t, p, from) == Some(j)
    ensures Find(t[from..j], p, 0).None?
  {
    hide *;
    forall k | 0 <= k < |t[from..j]| ensures !Occurs(t[from..j], p, k) { InsideOccurs(t, p, from, j, k); }
    FindsNone(t[from..j], p, 0);
  }

  lemma InsideOccurs(t: string, p: string, from: nat, j: nat, k: nat)
    requires |p| > 0 && from <= j <= |t| && Find(t, p, from) == Some(j) && k < j - from
    ensures !Occurs(t[from..j], p, k)
  {
    hide Find;
    var inner := t[from..j];
    assert !Occurs(t, p, from + k);
    if k + |p| <= |inner| { assert t[from + k..from + k + |p|] == inner[k..k + |p|]; }
  }

  /** and in no other way. */
  lemma {:induction false} OutsideIsUnique(gaps: seq<string>, stretches: seq<string>)
    requires Outside(gaps, stretches)
    ensures Gaps(Woven(gaps, stretches)) == gaps
    decreases |stretches|
  {
    hide Find, Occurs, Gaps;
    if stretches != [] {
      OutsideIsUnique(gaps[1..], stretches[1..]);
      GapsPastStretch(gaps[0], stretches[0], Woven(gaps[1..], stretches[1..]));
      assert [gaps[0]] + gaps[1..] == gaps;
    } else {
      OneGap(gaps[0]);
      assert [gaps[0]] == gaps;
    }
  }

  lemma GapsPastStretch(g: string, m: string, w: string)
    requires Find(g, START, 0).None? && Find(m, END, 0).None?
    ensures Gaps(g + (START + (m + (END + w)))) == [g] + Gaps(w)
  {
    hide Find, Occurs, Gaps;
    MarkersAreMarkers();
    var y := m + (END + w);
    var t := g + (START + y);
    StartIsFound(t, g, START, y);
    StretchLayout(t, g, START, m, END, w, y);
    EndBehind(t, g + START, m, END, w, y);
    GapsStep(t, |g|, |g| + |START| + |m| + |END|);
  }

  lemma EndBehind(t: string, h: string, m: string, e: string, w: string, y: string)
    requires Find(m, e, 0).None? && Marker(e) && y == m + (e + w) && t == h + y
    ensures Find(t, e, |h|) == Some(|h| + |m|)
  {
    hide *;
    StartIsFound(y, m, e, w);
    MarkerLength(e);
    FindLater(t, h, y, e, |m|);
  }

  lemma StretchLayout(t: string, g: string, s: string, m: string, e: string, w: string, y: string)
    requires y == m + (e + w) && t == g + (s + y)
    ensures t == (g + s) + y && t[..|g|] == g && t[|g| + |s| + |m| + |e|..] == w
  {
    assert t == (g + s) + y;
    assert t[|g| + |s|..] == y;
  }

  lemma MarkerLength(p: string)
    requires Marker(p)
    ensures |p| > 0
  {
  }

  lemma FindLater(t: string, h: string, y: string, p: string, k: nat)
    requires |p| > 0 && Find(y, p, 0) == Some(k) && t == h + y
    ensures Find(t, p, |h|) == Some(|h| + k)
  {
    hide *;
    forall i | |h| <= i < |h| + k ensures !Occurs(t, p, i) {
      OccursLater(h, y, p, i);
      NotBefore(y, p, k, i - |h|);
    }
    OccursLater(h, y, p, |h| + k);
    FoundAt(y, p, k);
    FindIs(t, p, |h|, |h| + k);
  }

  lemma NotBefore(t: string, p: string, k: nat, i: int)
    requires Find(t, p, 0) == Some(k)
    ensures 0 <= i < k ==> !Occurs(t, p, i)
  {
    hide Find;
  }

  lemma FoundAt(t: string, p: string, k: nat)
    requires Find(t, p, 0) == Some(k)
    ensures Occurs(t, p, k)
  {
    hide Find;
  }

  lemma GapsPastBlock(g: string, body: string, x: string)
    requires Plain(body) && Find(g, START, 0).None?
    ensures Gaps(g + Block(body) + x) == [g] + Gaps(x)
  {
    hide Find;
    BlockIsFound(g, body, x);
    var t := g + Block(body) + x;
    var j := |g| + |START| + |body| + 2;
    assert t[..|g|] == g && t[j + |END|..] == x;
  }

  /** Trimming touches only the last piece. */
  lemma {:induction false} NormTrimsLastGap(t: string)
    ensures Gaps(Norm(t)) == Trimmed(Gaps(t))
    decreases |t|
  {
    hide Find, Norm, Gaps, Trimmed;
    if HasBlock(t) {
      var i := Find(t, START, 0).value;
      var e := Find(t, END, i + |START|).value + |END|;
      NormTrimsLastGap(t[e..]);
      NormStep(t, i, e);
      TrimmedCons(t[..i], Gaps(t[e..]));
    } else {
      NormUnmatched(t);
    }
  }

  lemma GapsStep(t: string, i: nat, e: nat)
    requires HasBlock(t) && i == Find(t, START, 0).value && e == Find(t, END, i + |START|).value + |END|
    ensures |END| <= e && i <= e <= |t| && Occurs(t, END, e - |END|) && Gaps(t) == [t[..i]] + Gaps(t[e..])
  {
    hide Find;
  }

  lemma NormStep(t: string, i: nat, e: nat)
    requires HasBlock(t) && i == Find(t, START, 0).value && e == Find(t, END, i + |START|).value + |END|
    ensures i <= e <= |t| && Gaps(t) == [t[..i]] + Gaps(t[e..]) && Gaps(Norm(t)) == [t[..i]] + Gaps(Norm(t[e..]))
  {
    hide Find, Norm, Gaps, Occurs;
    MarkersAreMarkers();
    NormFinds(t, START, 0);
    NormFinds(t, END, i + |START|);
    GapsStep(t, i, e);
    NormPast(t, i, e);
    GapsStep(Norm(t), i, e);
  }

  lemma NormUnmatched(t: string)
    requires !HasBlock(t)
    ensures Gaps(Norm(t)) == Trimmed(Gaps(t))
  {
    hide Find, Norm;
    MarkersAreMarkers();
    NormFinds(t, START, 0);
    if Find(t, START, 0).Some? { NormFinds(t, END, Find(t, START, 0).value + |START|); }
  }

  lemma TrimmedCons(g: string, gaps: seq<string>)
    requires gaps != []
    ensures Trimmed([g] + gaps) == [g] + Trimmed(gaps)
  {
  }

  lemma NormPast(t: string, i: nat, e: nat)
    requires i <= e && |END| <= e <= |t| && Occurs(t, END, e - |END|)
    ensures |Norm(t)| >= e && Norm(t)[..i] == t[..i] && Norm(t)[e..] == Norm(t[e..])
  {
    hide Strip;
    MarkersAreMarkers();
    CharacterOf(t, END, e - |END|, |END| - 1);
    assert t[..e] + t[e..] == t && t[..e][e - 1] == t[e - 1];
    StripPast(t[..e], t[e..]);
    assert Norm(t) == t[..e] + Norm(t[e..]);
  }

  /** What publication does to the text: every piece outside the managed stretches stays, but for trailing whitespace;
      a first insertion comes right behind the first line, or before everything when there is no line break, with one
      more line break on either side of the block. */
  lemma PublishingKeepsText(t: string, body: string)
    requires Plain(body)
    ensures Find(t, START, 0).Some? ==> Gaps(Published(t, body)) == Trimmed(Gaps(t))
    ensures Find(t, START, 0).None? ==>
      exists k :: BehindFirstLine(t, k) && Gaps(Published(t, body)) == [t[..k] + "\n", Norm("\n" + t[k..])]
  {
    hide Find, Block, Norm, Refresh, Gaps, Content, Trimmed;
    NormTrimsLastGap(Content(t, body));
    if Find(t, START, 0).Some? {
      PublishedHasStart(t, body);
      RefreshKeepsGaps(t, body);
    } else {
      var g, x := InsertionParts(t, body);
      GapsPastBlock(g, body, x);
      OneGap(x);
      TrimmedPair(g, x);
    }
  }

  lemma TrimmedPair(g: string, x: string)
    ensures Trimmed([g] + [x]) == [g, Norm(x)]
  {
  }

  lemma OneGap(x: string)
    requires !HasBlock(x)
    ensures Gaps(x) == [x]
  {
  }

  // ---------------------------------------------------------------- which texts get a block

  /** A start marker that no end marker follows. */
  predicate Unclosed(t: string) { Find(t, START, 0).Some? && !HasBlock(t) }

  /** Publication leaves a complete block exactly in the texts that had no start marker or a closed one. */
  lemma ContentHoldsBlockIff(t: string, body: string)
    requires Plain(body)
    ensures HasBlock(Content(t, body)) <==> !Unclosed(t)
  {
    hide Find, Block;
    var i := Find(t, START, 0);
    if i.None? {
      var g, x := InsertionParts(t, body);
      BlockIsFound(g, body, x);
    } else {
      var j := Find(t, END, i.value + |START|);
      if j.Some? {
        NoStartBefore(t, i.value);
        BlockIsFound(t[..i.value], body, Refresh(t[j.value + |END|..], body));
      }
    }
  }

  /** An unclosed text is never refreshed, however often it is published. */
  lemma UnclosedStays(t: string, body: string)
    requires Unclosed(t)
    ensures Content(t, body) == t && Unclosed(Published(t, body))
  {
    hide Find, Norm;
    MarkersAreMarkers();
    NormFinds(t, START, 0);
    NormFinds(t, END, Find(t, START, 0).value + |START|);
  }

  /** For instance the start marker alone. */
  lemma StartAloneIsUnclosed()
    ensures Unclosed(START) && Content(START, ENGLISH) == START && !HasBlock(Content(START, ENGLISH))
  {
    assert START[0..|START|] == START;
    FindIs(START, START, 0, 0);
    FindsNone(START, END, |START|);
    UnclosedStays(START, ENGLISH);
  }

  // ---------------------------------------------------------------- the publisher

  /** A README, or a generated page: a guide or the index. */
  datatype Path = Readme(project: string, english: bool) | Page(name: string)

  /** What is on disk. */
  type Files = map<Path, string>

  /** The pages of one run as rendered, and the outputs whose links lead nowhere. */
  datatype Rendered = Rendered(pages: map<Path, string>, broken: set<Path>)

  predicate RenderedOk(r: Rendered) { forall p :: p in r.pages ==> p.Page? }

  /** `outputs_for`: every page, and every README that exists. */
  function Outputs(files: Files, r: Rendered): map<Path, string>
    requires RenderedOk(r)
  {
    map p | p in files.Keys + r.pages.Keys && (p.Readme? || p in r.pages) ::
      if p.Readme? then Content(files[p], Body(p.english)) else r.pages[p]
  }

  /** READMEs with a start marker and no end marker behind it: they stop the publisher before anything is written. */
  function Stopping(files: Files): set<Path> {
    set p | p in files && p.Readme? && Unclosed(files[p])
  }

  function Errors(files: Files, r: Rendered): set<Path>
    requires RenderedOk(r)
  {
    Stopping(files) + r.broken * Outputs(files, r).Keys
  }

  function OutOfDate(files: Files, r: Rendered): set<Path>
    requires RenderedOk(r)
  {
    set p | p in Outputs(files, r) && (p !in files || files[p] != Norm(Outputs(files, r)[p]))
  }

  /** The disk after a publication: every output in its published form, everything else as it was. */
  function AllPublished(files: Files, r: Rendered): Files
    requires RenderedOk(r)
  {
    map p | p in files.Keys + Outputs(files, r).Keys ::
      if p in Outputs(files, r) then Norm(Outputs(files, r)[p]) else files[p]
  }

  /** `verify_links` on READMEs: the managed block is looked for in what would be written. */
  method VerifyBlocks(files: Files, r: Rendered) returns (errors: set<Path>)
    requires RenderedOk(r)
    ensures errors == Stopping(files)
  {
    hide Content, Norm, HasBlock, Body, Unclosed;
    errors := {};
    var outputs := Outputs(files, r);
    var left := outputs.Keys;
    while left != {}
      invariant left <= outputs.Keys && errors == set p | p in Stopping(files) && p !in left
    {
      assert (forall p :: p !in left) ==> left == {};
      var p: Path :| p in left;
      left := left - {p};
      if p.Readme? {
        BodyIsPlain(p.english);
        ContentHoldsBlockIff(files[p], Body(p.english));
        if !HasBlock(outputs[p]) { errors := errors + {p}; }
      }
    }
  }

  /** `main`: link errors stop it before anything is written; otherwise every output that differs is written, or with
      `--check` reported. */
  method Run(files: Files, r: Rendered, check: bool) returns (after: Files, errors: set<Path>)
    requires RenderedOk(r)
    ensures Errors(files, r) != {} ==> after == files && errors == Errors(files, r)
    ensures Errors(files, r) == {} && check ==> after == files && errors == OutOfDate(files, r)
    ensures Errors(files, r) == {} && !check ==> after == AllPublished(files, r) && errors == {}
  {
    hide Content, Norm, Body, Outputs, Stopping;
    var outputs := Outputs(files, r);
    var missing := VerifyBlocks(files, r);
    after, errors := files, missing + r.broken * outputs.Keys;
    if errors != {} { return; }
    var left := outputs.Keys;
    while left != {}
      invariant left <= outputs.Keys && files.Keys <= after.Keys <= files.Keys + outputs.Keys
      invariant check ==> after == files && errors == set p | p in OutOfDate(files, r) && p !in left
      invariant !check ==> errors == {} && after.Keys >= outputs.Keys - left
      invariant !check ==> forall p :: p in after ==>
        if p in outputs && p !in left then after[p] == Norm(outputs[p]) else p in files && after[p] == files[p]
    {
      assert (forall p :: p !in left) ==> left == {};
      var p: Path :| p in left;
      left := left - {p};
      var content := Norm(outputs[p]);
      if p !in files || files[p] != content {
        if check { errors := errors + {p}; } else { after := after[p := content]; }
      }
    }
  }

  /** After a publication that was not stopped, the same pages pass `--check`: nothing is stopped or out of date. */
  lemma CheckPassesAfterPublishing(files: Files, r: Rendered)
    requires RenderedOk(r) && Errors(files, r) == {}
    ensures Errors(AllPublished(files, r), r) == {} && OutOfDate(AllPublished(files, r), r) == {}
  {
    hide Find, Norm, Block, HasBlock, Body, Content, Unclosed;
    var after := AllPublished(files, r);
    assert Outputs(after, r).Keys == Outputs(files, r).Keys;
    forall p | p in Outputs(after, r)
      ensures after[p] == Norm(Outputs(after, r)[p]) && (p.Readme? ==> !Unclosed(after[p]))
    {
      if p.Readme? {
        BodyIsPlain(p.english);
        PublishingIsAFixedPoint(files[p], Body(p.english));
        assert p !in Stopping(files);
        ContentSettles(files[p], Body(p.english));
      }
    }
  }

  /** Where a block was written, the next run finds it again. */
  lemma ContentSettles(t: string, body: string)
    requires Plain(body) && !Unclosed(t)
    ensures !Unclosed(Published(t, body))
  {
    hide Find, Norm, Block, Refresh;
    MarkersAreMarkers();
    ContentHoldsBlockIff(t, body);
    var c := Content(t, body);
    NormFinds(c, START, 0);
    NormFinds(c, END, Find(c, START, 0).value + |START|);
  }

  lemma PublishingContent(t: string, body: string)
    requires Plain(body)
    ensures Content(Published(t, body), body) == Published(t, body)
  {
    hide Find, Block, Norm, Refresh;
    var p := Published(t, body);
    PublishedHasStart(t, body);
    if Find(t, START, 0).Some? {
      RefreshSettles(t, body);
    } else {
      var g, x := InsertionParts(t, body);
      NormPastBlock(g, body, x);
      RefreshPastBlock(g, body, Norm(x));
      MarkersAreMarkers();
      NormFinds(x, START, 0);
      NothingToRefresh(Norm(x), body);
    }
  }

  /** After a publication that was not stopped, every README consists of its pieces and at least one block, each the
      block of its own language. */
  lemma ReadmesSpeakTheirLanguage(files: Files, r: Rendered, p: Path)
    requires RenderedOk(r) && Errors(files, r) == {} && p in files && p.Readme?
    ensures p in AllPublished(files, r)
    ensures var t := AllPublished(files, r)[p];
      |Gaps(t)| > 1 && t == Joined(Gaps(t), Block(if p.english then ENGLISH else CHINESE))
    ensures ENGLISH != CHINESE
  {
    hide Find, Norm, Block, Content, Gaps;
    assert p !in Stopping(files);
    assert p in Outputs(files, r);
    BodyIsPlain(p.english);
    var body := Body(p.english);
    var t := Published(files[p], body);
    ContentSettles(files[p], body);
    PublishedHasStart(files[p], body);
    PublishingContent(files[p], body);
    PublishedHasStart(t, body);
    RefreshKeepsGaps(t, body);
    ManyGaps(t);
    LanguagesDiffer();
  }

  lemma LanguagesDiffer()
    ensures ENGLISH != CHINESE
  {
    assert ENGLISH[3] == ENGLISH_TITLE[3] == 'C';
    assert CHINESE[3] == CHINESE_TITLE[3] != 'C';
  }

  lemma ManyGaps(t: string)
    requires HasBlock(t)
    ensures |Gaps(t)| > 1
  {
    hide Find;
  }
}
