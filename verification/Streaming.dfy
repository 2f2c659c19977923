/** fetch/stream.go: the text of a page cut into chunks while the tree is walked. */
module Streaming {
  import opened Dom
  import opened Text
  import opened Readability

  const CHUNK_SIZE := 900

  datatype Chunk = Chunk(text: string, number: nat)

  /** The flush buffer, the next sequence number and the chunks sent so far. */
  datatype Output = Output(buf: string, next: nat, sent: seq<Chunk>)

  const START: Output := Output("", 0, [])

  function Flushed(o: Output): Output {
    if o.buf == "" then o
    else Output("", o.next + 1, o.sent + [Chunk(o.buf, o.next)])
  }

  function FlushedIfFull(o: Output): Output {
    if Bytes(o.buf) >= CHUNK_SIZE then Flushed(o) else o
  }

  /** What the walk does at one node: a paragraph start flushes a full buffer, characters are buffered. */
  function Feed(o: Output, n: Node): Output {
    var o := if StartsParagraph(n) then FlushedIfFull(o) else o;
    if n.kind == Characters then FlushedIfFull(o.(buf := o.buf + n.data)) else o
  }

  /** The chunk sequence of a container, the last flush included. */
  function ChunksOf(n: Node): seq<Chunk> {
    Flushed(Fold(Feed, START, Preorder(n, Visible))).sent
  }

  function StreamedChunks(doc: Node): seq<Chunk> {
    ChunksOf(Best(doc))
  }

  /** The variables the goroutine's closures share; sent is what it put on the chunk channel. */
  class ChunkWriter {
    var buf: string
    var next: nat
    var sent: seq<Chunk>

    ghost function State(): Output
      reads this
    {
      Output(buf, next, sent)
    }

    constructor ()
      ensures State() == START
    {
      buf, next, sent := "", 0, [];
    }

    method Flush()
      modifies this
      ensures State() == Flushed(old(State()))
    {
      if Bytes(buf) == 0 {
        return;
      }
      sent := sent + [Chunk(buf, next)];
      next := next + 1;
      buf := "";
    }

    method Walk(n: Node)
      modifies this
      ensures State() == Fold(Feed, old(State()), Preorder(n, Visible))
      decreases n
    {
      FeedVisited(State(), n);
      if n.kind == Element {
        if n.data in SKIP_TAGS {
          return;
        }
        if n.data in PARAGRAPH_TAGS {
          if Bytes(buf) >= CHUNK_SIZE {
            Flush();
          }
        }
      }
      if n.kind == Characters {
        buf := buf + n.data;
        if Bytes(buf) >= CHUNK_SIZE {
          Flush();
        }
      }
      ghost var entered := State();
      for i := 0 to |n.kids|
        invariant State() == Fold(Feed, entered, PreorderAll(n.kids[..i], Visible))
      {
        FoldNextKid(Feed, entered, n.kids, i, Visible);
        Walk(n.kids[i]);
      }
      assert n.kids[..|n.kids|] == n.kids;
    }
  }

  lemma FeedVisited(o: Output, n: Node)
    ensures Fold(Feed, o, Preorder(n, Visible))
         == if Skipped(n) then o else Fold(Feed, Feed(o, n), PreorderAll(n.kids, Visible))
  {
    if !Skipped(n) {
      FoldEnter(Feed, o, n, Visible);
    }
  }

  /** The goroutine of ExtractStream on a parsed document: chunks are what it sends, page what it delivers. */
  method ExtractStream(url: string, doc: Node) returns (chunks: seq<Chunk>, page: Page)
    ensures chunks == StreamedChunks(doc)
    ensures page == Page(url, PageText(doc))
  {
    var best := FindBestContainer(doc);
    var out := new ChunkWriter();
    out.Walk(best);
    out.Flush();
    chunks := out.sent;
    var sb := new Builder();
    CollectText(best, sb);
    var text := NormalizeText(sb.text);
    page := Page(url, text);
  }

  // ---- What the chunks are --------------------------------------------------------------

  /** Text nodes grouped into full chunks and the ones still buffered. */
  datatype Groups = Groups(full: seq<seq<string>>, open: seq<string>)

  function Flatten(gs: seq<seq<string>>): seq<string> {
    if gs == [] then [] else Flatten(gs[..|gs| - 1]) + gs[|gs| - 1]
  }

  /** A group that reached the chunk size with its last text node and not before. */
  predicate JustFull(g: seq<string>) {
    g != [] && Bytes(Concat(g)) >= 900 && Bytes(Concat(g[..|g| - 1])) < 900
  }

  /** The reference: consecutive groups of text nodes, each closed as soon as it is full. */
  predicate GreedyGroups(gs: Groups, leaves: seq<string>) {
    && Flatten(gs.full) + gs.open == leaves
    && (forall g :: g in gs.full ==> JustFull(g))
    && Bytes(Concat(gs.open)) < 900
  }

  /** One more text node: it joins the open group, which is closed if that fills it. */
  function Extended(gs: Groups, leaf: string): Groups {
    var g := gs.open + [leaf];
    if Bytes(Concat(g)) >= CHUNK_SIZE then Groups(gs.full + [g], []) else gs.(open := g)
  }

  function Grouped(leaves: seq<string>): Groups {
    if leaves == [] then Groups([], [])
    else Extended(Grouped(leaves[..|leaves| - 1]), leaves[|leaves| - 1])
  }

  lemma FlattenSnoc(gs: seq<seq<string>>, g: seq<string>)
    ensures Flatten(gs + [g]) == Flatten(gs) + g
  {
    assert (gs + [g])[..|gs|] == gs;
  }

  /** A group that is full with one more text node is just full. */
  lemma JustFullWithLast(open: seq<string>, leaf: string)
    requires Bytes(Concat(open)) < CHUNK_SIZE <= Bytes(Concat(open + [leaf]))
    ensures JustFull(open + [leaf])
  {
    assert (open + [leaf])[..|open|] == open;
  }

  lemma ExtendedIsGreedy(gs: Groups, leaves: seq<string>, leaf: string)
    requires GreedyGroups(gs, leaves)
    ensures GreedyGroups(Extended(gs, leaf), leaves + [leaf])
  {
    var g := gs.open + [leaf];
    assert Flatten(gs.full) + g == leaves + [leaf];
    if Bytes(Concat(g)) >= CHUNK_SIZE {
      JustFullWithLast(gs.open, leaf);
      FlattenSnoc(gs.full, g);
      assert Flatten(gs.full + [g]) + [] == leaves + [leaf];
      assert Concat([]) == "";
    }
  }

  lemma GroupedNext(before: seq<string>, leaf: string, leaves: seq<string>)
    requires GreedyGroups(Grouped(before), before) && leaves == before + [leaf]
    ensures GreedyGroups(Grouped(leaves), leaves)
  {
    assert leaves[..|leaves| - 1] == before;
    ExtendedIsGreedy(Grouped(before), before, leaf);
  }

  lemma {:induction false} GroupedIsGreedy(leaves: seq<string>)
    ensures GreedyGroups(Grouped(leaves), leaves)
  {
    if leaves != [] {
      var k := |leaves| - 1;
      GroupedIsGreedy(leaves[..k]);
      GroupedNext(leaves[..k], leaves[k], leaves);
    }
  }

  lemma BytesPrefix(a: seq<string>, x: string)
    ensures Bytes(Concat(a)) <= Bytes(Concat(a + [x]))
  {
    ConcatSnoc(a, x);
    BytesAppend(Concat(a), x);
  }

  /** Taking the last text node off a greedy grouping leaves a greedy grouping. */
  function WithoutLast(gs: Groups): Groups
    requires gs.open == [] ==> gs.full != [] && gs.full[|gs.full| - 1] != []
  {
    if gs.open != [] then gs.(open := gs.open[..|gs.open| - 1])
    else
      var m := |gs.full| - 1;
      Groups(gs.full[..m], gs.full[m][..|gs.full[m]| - 1])
  }

  lemma OpenWithoutLast(gs: Groups, leaves: seq<string>)
    requires GreedyGroups(gs, leaves) && gs.open != []
    ensures leaves != [] && gs == Extended(WithoutLast(gs), leaves[|leaves| - 1])
    ensures GreedyGroups(WithoutLast(gs), leaves[..|leaves| - 1])
  {
    var j := |gs.open| - 1;
    assert gs.open == gs.open[..j] + [gs.open[j]];
    BytesPrefix(gs.open[..j], gs.open[j]);
    assert Flatten(gs.full) + gs.open[..j] == leaves[..|leaves| - 1];
  }

  lemma FullWithoutLast(gs: Groups, leaves: seq<string>)
    requires GreedyGroups(gs, leaves) && gs.open == [] && gs.full != []
    ensures gs.full[|gs.full| - 1] != []
    ensures leaves != [] && gs == Extended(WithoutLast(gs), leaves[|leaves| - 1])
    ensures GreedyGroups(WithoutLast(gs), leaves[..|leaves| - 1])
  {
    var m := |gs.full| - 1;
    var g := gs.full[m];
    assert gs.full == gs.full[..m] + [g];
    FlattenSnoc(gs.full[..m], g);
    assert JustFull(g);
    LastOfGroup(Flatten(gs.full[..m]), g, leaves);
  }

  lemma LastOfGroup(before: seq<string>, g: seq<string>, leaves: seq<string>)
    requires leaves == before + g && g != []
    ensures g == g[..|g| - 1] + [leaves[|leaves| - 1]] && before + g[..|g| - 1] == leaves[..|leaves| - 1]
  {
  }

  /** There is one greedy grouping of a list of text nodes. */
  lemma {:induction false} GreedyIsUnique(leaves: seq<string>, gs: Groups)
    requires GreedyGroups(gs, leaves)
    ensures gs == Grouped(leaves)
    decreases |leaves|
  {
    if gs.open != [] {
      OpenWithoutLast(gs, leaves);
      GreedyIsUnique(leaves[..|leaves| - 1], WithoutLast(gs));
    } else if gs.full != [] {
      FullWithoutLast(gs, leaves);
      GreedyIsUnique(leaves[..|leaves| - 1], WithoutLast(gs));
    } else {
      assert leaves == [];
    }
  }

  /** One numbered chunk for each full group. */
  function Closed(gs: seq<seq<string>>): (cs: seq<Chunk>)
    ensures |cs| == |gs|
  {
    if gs == [] then []
    else
      var m := |gs| - 1;
      Closed(gs[..m]) + [Chunk(Concat(gs[m]), m)]
  }

  /** The chunks that a grouping stands for: its full groups, and what is left if it has text. */
  function Rendered(gs: Groups): seq<Chunk> {
    Closed(gs.full) + if Concat(gs.open) == "" then [] else [Chunk(Concat(gs.open), |gs.full|)]
  }

  lemma ClosedSnoc(gs: seq<seq<string>>, g: seq<string>)
    ensures Closed(gs + [g]) == Closed(gs) + [Chunk(Concat(g), |gs|)]
  {
    assert (gs + [g])[..|gs|] == gs;
  }

  /** What the walk's output is when the text nodes so far are grouped as gs. */
  function OutputFor(gs: Groups): Output {
    Output(Concat(gs.open), |gs.full|, Closed(gs.full))
  }

  lemma FeedCharacters(gs: Groups, n: Node)
    requires n.kind == Characters
    ensures Feed(OutputFor(gs), n) == OutputFor(Extended(gs, n.data))
  {
    ConcatSnoc(gs.open, n.data);
    ClosedSnoc(gs.full, gs.open + [n.data]);
    assert Concat([]) == "";
  }

  /** An element finds less than a chunk buffered and changes nothing. */
  lemma FeedElement(gs: Groups, n: Node)
    requires n.kind != Characters && Bytes(Concat(gs.open)) < 900
    ensures Feed(OutputFor(gs), n) == OutputFor(gs)
  {
  }

  /** The walk keeps the open group in its buffer and has sent the full ones. */
  lemma {:induction false} FeedGroups(ns: seq<Node>)
    ensures Fold(Feed, START, ns) == OutputFor(Grouped(Leaves(ns)))
  {
    if ns != [] {
      var k := |ns| - 1;
      FeedGroups(ns[..k]);
      var before := Leaves(ns[..k]);
      GroupedIsGreedy(before);
      if ns[k].kind == Characters {
        FeedCharacters(Grouped(before), ns[k]);
        assert (before + [ns[k].data])[..|before|] == before;
      } else {
        FeedElement(Grouped(before), ns[k]);
        assert before + [] == before;
      }
    }
  }

  /** On entry to every node less than a chunk is buffered, so the flush at a paragraph boundary
      never happens: an element changes nothing. */
  lemma BoundaryNeverFlushes(ns: seq<Node>, k: nat)
    requires k < |ns|
    ensures Bytes(Fold(Feed, START, ns[..k]).buf) < 900
    ensures ns[k].kind == Element ==> Feed(Fold(Feed, START, ns[..k]), ns[k]) == Fold(Feed, START, ns[..k])
  {
    FeedGroups(ns[..k]);
    GroupedIsGreedy(Leaves(ns[..k]));
  }

  /** The chunks of a container are the greedy grouping of its visible text nodes, and no other
      grouping is greedy. */
  lemma ChunksAreGreedy(n: Node)
    ensures var leaves := Leaves(Preorder(n, Visible));
      && GreedyGroups(Grouped(leaves), leaves)
      && ChunksOf(n) == Rendered(Grouped(leaves))
      && forall gs :: GreedyGroups(gs, leaves) ==> ChunksOf(n) == Rendered(gs)
  {
    var leaves := Leaves(Preorder(n, Visible));
    FeedGroups(Preorder(n, Visible));
    GroupedIsGreedy(leaves);
    forall gs | GreedyGroups(gs, leaves) ensures gs == Grouped(leaves) {
      GreedyIsUnique(leaves, gs);
    }
  }

  lemma {:induction false} ClosedNumbered(gs: seq<seq<string>>, i: nat)
    requires i < |gs|
    ensures Closed(gs)[i] == Chunk(Concat(gs[i]), i)
  {
    if i < |gs| - 1 {
      ClosedNumbered(gs[..|gs| - 1], i);
    }
  }

  /** Numbered 0, 1, 2, ..., none empty, and every one but the last at least a chunk size long. */
  predicate WellFormed(cs: seq<Chunk>) {
    forall i :: 0 <= i < |cs| ==>
      cs[i].number == i && cs[i].text != "" && (i < |cs| - 1 ==> Bytes(cs[i].text) >= 900)
  }

  lemma FullChunk(gs: Groups, leaves: seq<string>, i: nat)
    requires GreedyGroups(gs, leaves) && i < |gs.full|
    ensures Closed(gs.full)[i] == Chunk(Concat(gs.full[i]), i)
    ensures Bytes(Concat(gs.full[i])) >= 900 && Concat(gs.full[i]) != ""
  {
    ClosedNumbered(gs.full, i);
    assert JustFull(gs.full[i]);
  }

  lemma RenderedWellFormed(gs: Groups, leaves: seq<string>)
    requires GreedyGroups(gs, leaves)
    ensures WellFormed(Rendered(gs))
  {
    forall i | 0 <= i < |gs.full|
      ensures Rendered(gs)[i] == Chunk(Concat(gs.full[i]), i)
      ensures Bytes(Concat(gs.full[i])) >= 900 && Concat(gs.full[i]) != ""
    {
      FullChunk(gs, leaves, i);
    }
  }

  lemma ChunksWellFormed(n: Node)
    ensures WellFormed(ChunksOf(n))
  {
    var leaves := Leaves(Preorder(n, Visible));
    ChunksAreGreedy(n);
    RenderedWellFormed(Grouped(leaves), leaves);
  }

  // ---- The stream and the page hold the same text ---------------------------------------

  function TextOf(cs: seq<Chunk>): string {
    if cs == [] then "" else TextOf(cs[..|cs| - 1]) + cs[|cs| - 1].text
  }

  lemma {:induction false} TextOfClosed(gs: seq<seq<string>>)
    ensures TextOf(Closed(gs)) == Concat(Flatten(gs))
  {
    if gs != [] {
      var m := |gs| - 1;
      TextOfClosed(gs[..m]);
      ConcatAppend(Flatten(gs[..m]), gs[m]);
      assert Closed(gs)[..m] == Closed(gs[..m]);
    }
  }

  /** Nothing is lost, added or reordered between the text nodes and the chunks. */
  lemma ChunksHoldVisibleText(n: Node)
    ensures TextOf(ChunksOf(n)) == VisibleText(n)
  {
    ChunksAreGreedy(n);
    var gs := Grouped(Leaves(Preorder(n, Visible)));
    TextOfClosed(gs.full);
    ConcatAppend(Flatten(gs.full), gs.open);
    var sent := Closed(gs.full);
    if Concat(gs.open) != "" {
      var last := Chunk(Concat(gs.open), |gs.full|);
      assert (sent + [last])[..|sent|] == sent;
    } else {
      assert sent + [] == sent;
      assert Concat(Flatten(gs.full)) + "" == Concat(Flatten(gs.full));
    }
  }

  /** The streamed chunks and the delivered page have the same characters, white space aside, in the same order. */
  lemma StreamMatchesPage(doc: Node)
    ensures NonSpace(TextOf(StreamedChunks(doc))) == NonSpace(PageText(doc))
  {
    ChunksHoldVisibleText(Best(doc));
    PageHoldsVisibleText(doc);
  }

  lemma FeedBlind()
    ensures BlindToWrapping(Feed)
  {
    forall o: Output, t: Node, w: Node | SameLabel(t, w) && Wrapped(t, w) ensures Feed(o, t) == Feed(o, w) {
    }
  }

  /** Putting divs directly around articles leaves the chunk sequence and the page as they were. */
  lemma WrappingKeepsStream(t: Node, w: Node)
    requires Wrapped(t, w)
    ensures StreamedChunks(w) == StreamedChunks(t)
    ensures PageText(w) == PageText(t)
  {
    BestWrapped(t, w);
    FeedBlind();
    FoldWrapped(Feed, START, Best(t), Best(w), Visible);
    WrappingKeepsPage(t, w);
  }

  /** In particular one div around the article that a path leads to. */
  lemma InsertedDivKeepsStream(doc: Node, path: seq<nat>)
    requires Reaches(doc, path) && IsArticle(At(doc, path))
    ensures StreamedChunks(InsertDiv(doc, path)) == StreamedChunks(doc)
    ensures PageText(InsertDiv(doc, path)) == PageText(doc)
  {
    InsertDivWraps(doc, path);
    WrappingKeepsStream(doc, InsertDiv(doc, path));
  }
}
