/** fetch/extract.go: choosing the readable container of a page and collecting its text. */
module Readability {
  import opened Options
  import opened Dom
  import opened Text

  // ---- Text content ---------------------------------------------------------------------

  function AddBytes(k: nat, n: Node): nat {
    if n.kind == Characters then k + Bytes(n.data) else k
  }

  function TextContentLen(n: Node): nat {
    Fold(AddBytes, 0, Preorder(n, Everything))
  }

  /** The closure inside textContentLen, with its counter n2. */
  class LengthWalk {
    var n2: nat

    constructor ()
      ensures n2 == 0
    {
      n2 := 0;
    }

    method Walk(n: Node)
      modifies this
      ensures n2 == Fold(AddBytes, old(n2), Preorder(n, Everything))
      decreases n
    {
      ghost var entered := AddBytes(n2, n);
      FoldEnter(AddBytes, n2, n, Everything);
      if n.kind == Characters {
        n2 := n2 + Bytes(n.data);
      }
      for i := 0 to |n.kids|
        invariant n2 == Fold(AddBytes, entered, PreorderAll(n.kids[..i], Everything))
      {
        FoldNextKid(AddBytes, entered, n.kids, i, Everything);
        Walk(n.kids[i]);
      }
      assert n.kids[..|n.kids|] == n.kids;
    }
  }

  // ---- Density --------------------------------------------------------------------------

  datatype Counts = Counts(textLen: nat, pCount: nat, aLen: nat)

  function Tally(c: Counts, n: Node): Counts {
    if n.kind == Element then
      var c' := if n.data == "p" then c.(pCount := c.pCount + 1) else c;
      if n.data == "a" then c'.(aLen := c'.aLen + TextContentLen(n)) else c'
    else if n.kind == Characters then c.(textLen := c.textLen + Bytes(Trim(n.data)))
    else c
  }

  function Tallied(n: Node): Counts {
    Fold(Tally, Counts(0, 0, 0), Preorder(n, Scoring))
  }

  /** The link-density penalty: the share of the text that is not link text. */
  function PlainShare(textLen: nat, aLen: nat): (share: real)
    requires textLen > 0
    ensures 0.0 < share <= 1.0
  {
    textLen as real / (textLen + aLen) as real
  }

  /** Text length plus 100 per paragraph, times the share of text that is not link text. */
  function Weigh(c: Counts): (score: real)
    ensures score >= 0.0
  {
    if c.textLen == 0 then 0.0
    else
      var score := c.textLen as real + c.pCount as real * 100.0;
      if c.aLen > 0 then score * PlainShare(c.textLen, c.aLen) else score
  }

  function Density(n: Node): real {
    Weigh(Tallied(n))
  }

  /** The closure inside density, with its three counters. */
  class DensityWalk {
    var textLen: nat
    var pCount: nat
    var aLen: nat

    constructor ()
      ensures Totals() == Counts(0, 0, 0)
    {
      textLen, pCount, aLen := 0, 0, 0;
    }

    ghost function Totals(): Counts
      reads this
    {
      Counts(textLen, pCount, aLen)
    }

    /** What the closure does at n before its children; descend tells whether it goes on to them. */
    method Visit(n: Node) returns (descend: bool)
      modifies this
      ensures descend ==> !Skipped(n) && !IsElement(n, "a") && Totals() == Tally(old(Totals()), n)
      ensures !descend ==> Totals() == Fold(Tally, old(Totals()), Preorder(n, Scoring))
    {
      FoldOne(Tally, Totals(), n);
      if n.kind == Element {
        if n.data in SKIP_TAGS {
          return false;
        }
        if n.data == "p" {
          pCount := pCount + 1;
        }
        if n.data == "a" {
          var length := new LengthWalk();
          length.Walk(n);
          aLen := aLen + length.n2;
          return false;
        }
      }
      if n.kind == Characters {
        textLen := textLen + Bytes(Trim(n.data));
      }
      return true;
    }

    method Walk(n: Node)
      modifies this
      ensures Totals() == Fold(Tally, old(Totals()), Preorder(n, Scoring))
      decreases n
    {
      var descend := Visit(n);
      if !descend {
        return;
      }
      FoldEnter(Tally, old(Totals()), n, Scoring);
      ghost var entered := Totals();
      for i := 0 to |n.kids|
        invariant Totals() == Fold(Tally, entered, PreorderAll(n.kids[..i], Scoring))
      {
        FoldNextKid(Tally, entered, n.kids, i, Scoring);
        Walk(n.kids[i]);
      }
      assert n.kids[..|n.kids|] == n.kids;
    }
  }

  method ComputeDensity(n: Node) returns (score: real)
    ensures score == Density(n)
  {
    var w := new DensityWalk();
    w.Walk(n);
    assert w.Totals() == Tallied(n);
    score := Weigh(Counts(w.textLen, w.pCount, w.aLen));
  }

  lemma {:induction false} TallyTextZeroIff(c: Counts, ns: seq<Node>)
    ensures Fold(Tally, c, ns).textLen == 0
       <==> c.textLen == 0 && forall n :: n in ns && n.kind == Characters ==> Trim(n.data) == ""
  {
    if ns != [] {
      var k := |ns| - 1;
      TallyTextZeroIff(c, ns[..k]);
      assert ns == ns[..k] + [ns[k]];
    }
  }

  /** A node scores nothing exactly if no text outside links and skipped elements is more than white space. */
  lemma DensityZeroIff(n: Node)
    ensures Density(n) == 0.0 <==> forall x :: x in Preorder(n, Scoring) && x.kind == Characters ==> Trim(x.data) == ""
  {
    TallyTextZeroIff(Counts(0, 0, 0), Preorder(n, Scoring));
    WeighPositive(Tallied(n));
  }

  lemma WeighPositive(c: Counts)
    ensures Weigh(c) > 0.0 <==> c.textLen > 0
  {
    if c.textLen > 0 && c.aLen > 0 {
      var score := c.textLen as real + c.pCount as real * 100.0;
      var share := PlainShare(c.textLen, c.aLen);
      assert score > 0.0;
      PositiveProduct(score, share);
    }
  }

  lemma PositiveProduct(x: real, y: real)
    requires x > 0.0 && y > 0.0
    ensures x * y > 0.0
  {
  }

  lemma ProductMonotone(x: real, y: real, z: real)
    requires x <= y && z >= 0.0
    ensures x * z <= y * z && z * x <= z * y
  {
  }

  lemma ProductStrict(x: real, y: real, z: real)
    requires x < y && z > 0.0
    ensures x * z < y * z && z * x < z * y
  {
    PositiveProduct(y - x, z);
  }

  lemma QuotientAbove(x: real, r: real, q: real)
    requires q > 0.0 && x * q <= r
    ensures x <= r / q
  {
    if x > r / q {
      ProductStrict(r / q, x, q);
    }
  }

  lemma QuotientBelow(x: real, r: real, q: real)
    requires q > 0.0 && r < x * q
    ensures r / q < x
  {
    if x <= r / q {
      ProductMonotone(x, r / q, q);
    }
  }

  /** More link text lowers the share of plain text. */
  lemma ShareFalls(textLen: nat, aLen: nat, more: nat)
    requires textLen > 0 && more > 0
    ensures PlainShare(textLen, aLen + more) < PlainShare(textLen, aLen)
  {
    var share, whole := PlainShare(textLen, aLen), (textLen + aLen) as real;
    assert share * whole == textLen as real;
    ProductStrict(whole, (textLen + aLen + more) as real, share);
    QuotientBelow(share, textLen as real, (textLen + aLen + more) as real);
  }

  /** More plain text does not lower it. */
  lemma ShareRises(textLen: nat, aLen: nat, more: nat)
    requires textLen > 0
    ensures PlainShare(textLen, aLen) <= PlainShare(textLen + more, aLen)
  {
    var share, whole, m := PlainShare(textLen, aLen), (textLen + aLen) as real, more as real;
    assert share * whole == textLen as real;
    ProductMonotone(share, 1.0, m);
    assert share * (whole + m) == share * whole + share * m;
    assert (textLen + more + aLen) as real == whole + m && (textLen + more) as real == textLen as real + m;
    QuotientAbove(share, textLen as real + m, whole + m);
  }

  /** Weigh without the case split: text and paragraphs, times the plain share. */
  lemma WeighIsProduct(c: Counts)
    requires c.textLen > 0
    ensures Weigh(c) == (c.textLen as real + c.pCount as real * 100.0) * PlainShare(c.textLen, c.aLen)
  {
  }

  /** More link text weighs less. */
  lemma LinkTextWeighsDown(c: Counts, more: nat)
    requires more > 0 && c.textLen > 0
    ensures Weigh(c.(aLen := c.aLen + more)) < Weigh(c)
  {
    var score := c.textLen as real + c.pCount as real * 100.0;
    var share, less := PlainShare(c.textLen, c.aLen), PlainShare(c.textLen, c.aLen + more);
    WeighIsProduct(c);
    WeighIsProduct(c.(aLen := c.aLen + more));
    assert Weigh(c) == score * share && Weigh(c.(aLen := c.aLen + more)) == score * less;
    ShareFalls(c.textLen, c.aLen, more);
    ProductStrict(less, share, score);
  }

  /** More plain text weighs more. */
  lemma PlainTextWeighsMore(c: Counts, more: nat)
    requires more > 0
    ensures Weigh(c.(textLen := c.textLen + more)) > Weigh(c)
  {
    var longer := c.(textLen := c.textLen + more);
    if c.textLen > 0 {
      WeighIsProduct(c);
      WeighIsProduct(longer);
      ShareRises(c.textLen, c.aLen, more);
      var score := c.textLen as real + c.pCount as real * 100.0;
      var share := PlainShare(longer.textLen, c.aLen);
      assert Weigh(c) == score * PlainShare(c.textLen, c.aLen);
      ProductMonotone(PlainShare(c.textLen, c.aLen), share, score);
      ProductStrict(score, score + more as real, share);
      assert longer.textLen as real + longer.pCount as real * 100.0 == score + more as real;
      assert Weigh(longer) == (score + more as real) * share;
      assert score * PlainShare(c.textLen, c.aLen) <= score * share < (score + more as real) * share;
    } else {
      WeighPositive(longer);
    }
  }

  /** A node with one more child at the end. */
  function WithKid(n: Node, kid: Node): Node {
    n.(kids := n.kids + [kid])
  }

  lemma TalliedWithKid(n: Node, kid: Node)
    requires !Skipped(n) && !IsElement(n, "a")
    ensures Tallied(WithKid(n, kid)) == Fold(Tally, Tallied(n), Preorder(kid, Scoring))
  {
    var more, none := WithKid(n, kid), Counts(0, 0, 0);
    FoldEnter(Tally, none, n, Scoring);
    FoldEnter(Tally, none, more, Scoring);
    FoldNextKid(Tally, Tally(none, n), more.kids, |n.kids|, Scoring);
    assert more.kids[..|n.kids|] == n.kids && more.kids[..|n.kids| + 1] == more.kids;
  }

  /** What the score rewards: another text node that is not blank raises a node's density, and another
      link with text lowers it if it was not 0. */
  lemma TextRaisesLinksLower(n: Node, kid: Node)
    requires !Skipped(n) && !IsElement(n, "a")
    ensures kid.kind == Characters && kid.kids == [] && Trim(kid.data) != "" ==> Density(WithKid(n, kid)) > Density(n)
    ensures IsElement(kid, "a") && TextContentLen(kid) > 0 && Density(n) > 0.0 ==>
      Density(WithKid(n, kid)) < Density(n)
  {
    TalliedWithKid(n, kid);
    FoldOne(Tally, Tallied(n), kid);
    WeighPositive(Tallied(n));
    if kid.kind == Characters && kid.kids == [] && Trim(kid.data) != "" {
      assert Preorder(kid, Scoring) == [kid];
      PlainTextWeighsMore(Tallied(n), Bytes(Trim(kid.data)));
    } else if IsElement(kid, "a") && TextContentLen(kid) > 0 && Density(n) > 0.0 {
      assert Preorder(kid, Scoring) == [kid];
      LinkTextWeighsDown(Tallied(n), TextContentLen(kid));
    }
  }

  /** The scale of the score, for a node with text and no links: a byte of text counts 1, a paragraph 100. */
  lemma DensityScale(n: Node, kid: Node)
    requires !Skipped(n) && !IsElement(n, "a") && Tallied(n).textLen > 0 && Tallied(n).aLen == 0
    ensures kid == Node(Element, "p", []) ==> Density(WithKid(n, kid)) == Density(n) + 100.0
    ensures kid.kind == Characters && kid.kids == [] ==>
      Density(WithKid(n, kid)) == Density(n) + Bytes(Trim(kid.data)) as real
  {
    var c := Tallied(n);
    TalliedWithKid(n, kid);
    FoldOne(Tally, c, kid);
    if kid.kids == [] && (kid.kind == Characters || IsElement(kid, "p")) {
      assert Preorder(kid, Scoring) == [kid] + [];
      assert [kid] + [] == [kid];
    }
  }

  /** A link scales it all by the share of the node's text in that and the link's together. */
  lemma LinkScales(n: Node, kid: Node)
    requires !Skipped(n) && !IsElement(n, "a") && Tallied(n).textLen > 0 && Tallied(n).aLen == 0
    requires IsElement(kid, "a")
    ensures Scales(Density(WithKid(n, kid)), Density(n), Tallied(n).textLen, TextContentLen(kid))
  {
    TalliedWithKid(n, kid);
    FoldOne(Tally, Tallied(n), kid);
    LinkWeighs(Tallied(n), TextContentLen(kid));
  }

  predicate Scales(after: real, before: real, textLen: nat, linkLen: nat) {
    after * (textLen + linkLen) as real == before * textLen as real
  }

  lemma LinkWeighs(c: Counts, more: nat)
    requires c.textLen > 0 && c.aLen == 0
    ensures Scales(Weigh(c.(aLen := more)), Weigh(c), c.textLen, more)
  {
    WeighIsProduct(c.(aLen := more));
    ShareScales(c.textLen as real + c.pCount as real * 100.0, c.textLen, more);
  }

  lemma ShareScales(score: real, textLen: nat, aLen: nat)
    requires textLen > 0
    ensures (score * PlainShare(textLen, aLen)) * (textLen + aLen) as real == score * textLen as real
  {
    var share, whole := PlainShare(textLen, aLen), (textLen + aLen) as real;
    assert share * whole == textLen as real;
    assert (score * share) * whole == score * (share * whole);
  }

  /** The text of a link is all the text below it, white space and skipped elements included. */
  lemma {:induction false} LengthIsBytes(ns: seq<Node>)
    ensures Fold(AddBytes, 0, ns) == Bytes(Concat(Leaves(ns)))
  {
    if ns != [] {
      var before, n := ns[..|ns| - 1], ns[|ns| - 1];
      LengthIsBytes(before);
      if n.kind == Characters {
        ConcatSnoc(Leaves(before), n.data);
        BytesAppend(Concat(Leaves(before)), n.data);
      } else {
        assert Leaves(before) + [] == Leaves(before);
      }
    }
  }

  // ---- The best container ---------------------------------------------------------------

  predicate IsArticle(n: Node) {
    IsElement(n, "article")
  }

  /** Articles score their density, div, main and section a tenth less, other nodes nothing. */
  function Score(n: Node): real {
    if IsArticle(n) then Density(n)
    else if n.kind == Element && n.data in {"div", "main", "section"} then Density(n) * 0.9
    else 0.0
  }

  datatype Pick = Pick(best: Option<Node>, score: real)

  function Consider(p: Pick, n: Node): Pick {
    if Score(n) > p.score then Pick(Some(n), Score(n)) else p
  }

  /** The candidates are exactly these four kinds of element, if they have text of their own; and a div, main or
      section is put before an article exactly if nine tenths of its density exceed the article's. */
  lemma CandidatesMeaning(n: Node, a: Node)
    ensures Score(n) > 0.0
       <==> n.kind == Element && n.data in {"article", "div", "main", "section"} && Density(n) > 0.0
    ensures IsElement(a, "article") && n.kind == Element && n.data in {"div", "main", "section"} ==>
      (Consider(Pick(Some(a), Density(a)), n).best == Some(n) <==> 9.0 * Density(n) > 10.0 * Density(a))
  {
    WeighPositive(Tallied(n));
  }

  const NOTHING: Pick := Pick(None, 0.0)

  function Best(doc: Node): Node {
    var p := Fold(Consider, NOTHING, Preorder(doc, Everything));
    if p.best.None? then doc else p.best.value
  }

  /** The closure inside findBestContainer, with best and bestScore. */
  class BestWalk {
    var best: Option<Node>
    var bestScore: real

    constructor ()
      ensures Chosen() == NOTHING
    {
      best, bestScore := None, 0.0;
    }

    ghost function Chosen(): Pick
      reads this
    {
      Pick(best, bestScore)
    }

    /** The switch on the tag: an article, or a div, main or section at a slight penalty. */
    method Visit(n: Node)
      requires bestScore >= 0.0
      modifies this
      ensures Chosen() == Consider(old(Chosen()), n)
      ensures bestScore >= 0.0
    {
      if n.kind == Element {
        if n.data == "article" {
          var s := ComputeDensity(n);
          if s > bestScore {
            best, bestScore := Some(n), s;
          }
        } else if n.data == "div" || n.data == "main" || n.data == "section" {
          var s := ComputeDensity(n);
          s := s * 0.9;
          if s > bestScore {
            best, bestScore := Some(n), s;
          }
        }
      }
    }

    method Walk(n: Node)
      requires bestScore >= 0.0
      modifies this
      ensures Chosen() == Fold(Consider, old(Chosen()), Preorder(n, Everything))
      ensures bestScore >= 0.0
      decreases n
    {
      FoldEnter(Consider, Chosen(), n, Everything);
      Visit(n);
      ghost var entered := Chosen();
      for i := 0 to |n.kids|
        invariant bestScore >= 0.0
        invariant Chosen() == Fold(Consider, entered, PreorderAll(n.kids[..i], Everything))
      {
        FoldNextKid(Consider, entered, n.kids, i, Everything);
        Walk(n.kids[i]);
      }
      assert n.kids[..|n.kids|] == n.kids;
    }
  }

  method FindBestContainer(doc: Node) returns (best: Node)
    ensures best == Best(doc)
  {
    var w := new BestWalk();
    w.Walk(doc);
    best := if w.best == None then doc else w.best.value;
  }

  /** i is the first position with the highest score. */
  ghost predicate FirstMaximum(ns: seq<Node>, i: nat) {
    && i < |ns|
    && (forall j :: 0 <= j < |ns| ==> Score(ns[j]) <= Score(ns[i]))
    && (forall j :: 0 <= j < i ==> Score(ns[j]) < Score(ns[i]))
  }

  lemma {:induction false} FoldFindsFirstMaximum(ns: seq<Node>)
    ensures var p := Fold(Consider, NOTHING, ns);
      if p.best.None? then p.score == 0.0 && forall n :: n in ns ==> Score(n) == 0.0
      else p.score > 0.0 && exists i: nat :: FirstMaximum(ns, i) && ns[i] == p.best.value && Score(ns[i]) == p.score
  {
    if ns != [] {
      var k := |ns| - 1;
      var before := Fold(Consider, NOTHING, ns[..k]);
      FoldFindsFirstMaximum(ns[..k]);
      assert ns == ns[..k] + [ns[k]];
      if Score(ns[k]) > before.score {
        if before.best.Some? {
          var i: nat :| FirstMaximum(ns[..k], i) && ns[i] == before.best.value && Score(ns[i]) == before.score;
          assert forall j :: 0 <= j < k ==> Score(ns[..k][j]) <= before.score;
        } else {
          assert forall j :: 0 <= j < k ==> ns[j] in ns[..k];
        }
        assert forall j :: 0 <= j < k ==> Score(ns[j]) < Score(ns[k]);
        assert FirstMaximum(ns, k);
      } else if before.best.Some? {
        var i: nat :| FirstMaximum(ns[..k], i) && ns[i] == before.best.value && Score(ns[i]) == before.score;
        assert forall j :: 0 <= j < k ==> Score(ns[..k][j]) <= Score(ns[..k][i]);
        assert forall j :: 0 <= j < i ==> Score(ns[..k][j]) < Score(ns[..k][i]);
        assert FirstMaximum(ns, i);
      }
    }
  }

  /** The container is the first node, in document order, of highest score; the document itself
      exactly when every score is 0. */
  lemma BestIsFirstMaximum(doc: Node)
    ensures var ns := Preorder(doc, Everything);
      if forall n :: n in ns ==> Score(n) == 0.0 then Best(doc) == doc
      else exists i: nat :: FirstMaximum(ns, i) && Score(ns[i]) > 0.0 && Best(doc) == ns[i]
  {
    var ns := Preorder(doc, Everything);
    FoldFindsFirstMaximum(ns);
    var p := Fold(Consider, NOTHING, ns);
    if p.best.Some? {
      var i: nat :| FirstMaximum(ns, i) && ns[i] == p.best.value && Score(ns[i]) == p.score;
      assert ns[i] in ns;
    }
  }

  lemma FirstMaximumUnique(ns: seq<Node>, i: nat, j: nat)
    requires FirstMaximum(ns, i) && FirstMaximum(ns, j)
    ensures i == j
  {
    assert Score(ns[i]) <= Score(ns[j]) && Score(ns[j]) <= Score(ns[i]);
  }

  // ---- Collecting the text --------------------------------------------------------------

  function Emit(sb: string, n: Node): string {
    if StartsParagraph(n) then sb + "\n\n" else if n.kind == Characters then sb + n.data else sb
  }

  /** What collectText writes into an empty builder. */
  function Collected(n: Node): string {
    Fold(Emit, "", Preorder(n, Visible))
  }

  function PageText(doc: Node): string {
    Normalize(Collected(Best(doc)))
  }

  /** A strings.Builder. */
  class Builder {
    var text: string

    constructor ()
      ensures text == ""
    {
      text := "";
    }

    method WriteString(s: string)
      modifies this
      ensures text == old(text) + s
    {
      text := text + s;
    }
  }

  method CollectText(n: Node, sb: Builder)
    modifies sb
    ensures sb.text == Fold(Emit, old(sb.text), Preorder(n, Visible))
    decreases n
  {
    if n.kind == Element {
      if n.data in SKIP_TAGS {
        return;
      }
      if n.data in PARAGRAPH_TAGS {
        sb.WriteString("\n\n");
      }
    }
    FoldEnter(Emit, old(sb.text), n, Visible);
    if n.kind == Characters {
      sb.WriteString(n.data);
    }
    ghost var entered := sb.text;
    for i := 0 to |n.kids|
      invariant sb.text == Fold(Emit, entered, PreorderAll(n.kids[..i], Visible))
    {
      FoldNextKid(Emit, entered, n.kids, i, Visible);
      CollectText(n.kids[i], sb);
    }
    assert n.kids[..|n.kids|] == n.kids;
  }

  datatype Page = Page(url: string, text: string)

  /** Extract on a parsed document. */
  method Extract(url: string, doc: Node) returns (page: Page)
    ensures page == Page(url, PageText(doc))
  {
    var best := FindBestContainer(doc);
    var sb := new Builder();
    CollectText(best, sb);
    var text := NormalizeText(sb.text);
    page := Page(url, text);
  }

  /** The data of the text nodes among ns. */
  function Leaves(ns: seq<Node>): seq<string> {
    if ns == [] then []
    else
      var n := ns[|ns| - 1];
      Leaves(ns[..|ns| - 1]) + if n.kind == Characters then [n.data] else []
  }

  function VisibleText(n: Node): string {
    Concat(Leaves(Preorder(n, Visible)))
  }

  /** collectText's paragraph separators are white space; without white space its output is the visible text. */
  lemma {:induction false} EmitAddsSpaceOnly(ns: seq<Node>)
    ensures NonSpace(Fold(Emit, "", ns)) == NonSpace(Concat(Leaves(ns)))
  {
    if ns != [] {
      var k := |ns| - 1;
      var n := ns[k];
      var sb := Fold(Emit, "", ns[..k]);
      var leaves := Leaves(ns[..k]);
      EmitAddsSpaceOnly(ns[..k]);
      NonSpaceAppend(sb, "\n\n");
      assert NonSpace("\n\n") == "" by {
        assert "\n\n"[1..] == "\n" && "\n"[1..] == "";
      }
      NonSpaceAppend(sb, n.data);
      NonSpaceAppend(Concat(leaves), n.data);
      ConcatSnoc(leaves, n.data);
      assert leaves + [] == leaves;
    }
  }

  /** The page holds exactly the visible text of the best container, up to white space. */
  lemma PageHoldsVisibleText(doc: Node)
    ensures NonSpace(PageText(doc)) == NonSpace(VisibleText(Best(doc)))
  {
    NormalizeKeepsText(Collected(Best(doc)));
    EmitAddsSpaceOnly(Preorder(Best(doc), Visible));
  }

  // ---- Wrapping articles in divs changes nothing ----------------------------------------

  lemma TextContentLenWrapped(t: Node, w: Node)
    requires Wrapped(t, w)
    ensures TextContentLen(t) == TextContentLen(w)
  {
    FoldWrapped(AddBytes, 0, t, w, Everything);
  }

  lemma TallyBlind()
    ensures BlindToWrapping(Tally)
  {
    forall c: Counts, t: Node, w: Node | SameLabel(t, w) && Wrapped(t, w) ensures Tally(c, t) == Tally(c, w) {
      TextContentLenWrapped(t, w);
    }
  }

  lemma DensityWrapped(t: Node, w: Node)
    requires Wrapped(t, w)
    ensures Density(t) == Density(w)
  {
    TallyBlind();
    FoldWrapped(Tally, Counts(0, 0, 0), t, w, Scoring);
  }

  /** The two walks stand at corresponding choices. */
  predicate SamePick(p: Pick, q: Pick) {
    && p.score == q.score
    && p.best.Some? == q.best.Some?
    && (p.best.Some? ==> Wrapped(p.best.value, q.best.value))
  }

  /** The walk over the wrapped tree may be ahead while it is inside a div put around article t:
      it then holds a score t is about to beat. */
  predicate AheadInside(t: Node, p: Pick, q: Pick) {
    IsArticle(t) && p.score < q.score < Density(t)
  }

  /** Considering corresponding nodes keeps the walks together; considering the added div may put one ahead. */
  lemma ConsiderWrapped(t: Node, w: Node, p: Pick, q: Pick)
    requires Wrapped(t, w) && p.score >= 0.0
    requires SamePick(p, q) || AheadInside(t, p, q)
    ensures SameLabel(t, w) ==> SamePick(Consider(p, t), Consider(q, w))
    ensures !SameLabel(t, w) ==> SamePick(p, Consider(q, w)) || AheadInside(t, p, Consider(q, w))
  {
    DensityWrapped(t, w);
  }

  lemma {:induction false} PickWrapped(t: Node, w: Node, p: Pick, q: Pick)
    requires Wrapped(t, w) && p.score >= 0.0
    requires SamePick(p, q) || AheadInside(t, p, q)
    ensures SamePick(Fold(Consider, p, Preorder(t, Everything)), Fold(Consider, q, Preorder(w, Everything)))
    ensures Fold(Consider, p, Preorder(t, Everything)).score >= 0.0
    decreases w, 1
  {
    ConsiderWrapped(t, w, p, q);
    FoldEnter(Consider, q, w, Everything);
    if SameLabel(t, w) {
      FoldEnter(Consider, p, t, Everything);
      PickWrappedAll(t.kids, w.kids, Consider(p, t), Consider(q, w));
    } else {
      var inner := w.kids[0];
      assert w.kids == [inner] && w.kids[..0] == [] && w.kids[..1] == w.kids;
      FoldNextKid(Consider, Consider(q, w), w.kids, 0, Everything);
      PickWrapped(t, inner, p, Consider(q, w));
    }
  }

  lemma {:induction false} PickWrappedAll(ts: seq<Node>, ws: seq<Node>, p: Pick, q: Pick)
    requires |ts| == |ws| && (forall i :: 0 <= i < |ws| ==> Wrapped(ts[i], ws[i]))
    requires SamePick(p, q) && p.score >= 0.0
    ensures SamePick(Fold(Consider, p, PreorderAll(ts, Everything)), Fold(Consider, q, PreorderAll(ws, Everything)))
    ensures Fold(Consider, p, PreorderAll(ts, Everything)).score >= 0.0
    decreases ws, 0
  {
    if ws != [] {
      var k := |ws| - 1;
      PickWrappedAll(ts[..k], ws[..k], p, q);
      FoldNextKid(Consider, p, ts, k, Everything);
      FoldNextKid(Consider, q, ws, k, Everything);
      assert ts[..k + 1] == ts && ws[..k + 1] == ws;
      PickWrapped(ts[k], ws[k],
                  Fold(Consider, p, PreorderAll(ts[..k], Everything)),
                  Fold(Consider, q, PreorderAll(ws[..k], Everything)));
    }
  }

  /** The chosen container of the wrapped tree is the (wrapped) container of the original one. */
  lemma BestWrapped(t: Node, w: Node)
    requires Wrapped(t, w)
    ensures Wrapped(Best(t), Best(w))
  {
    PickWrapped(t, w, NOTHING, NOTHING);
  }

  lemma EmitIsBlind()
    ensures BlindToWrapping(Emit)
  {
  }

  lemma CollectedWrapped(t: Node, w: Node)
    requires Wrapped(t, w) && BlindToWrapping(Emit)
    ensures Collected(w) == Collected(t)
  {
    FoldWrapped(Emit, "", t, w, Visible);
  }

  /** Putting divs directly around articles changes neither the collected text nor the page. */
  lemma WrappingKeepsPage(t: Node, w: Node)
    requires Wrapped(t, w)
    ensures Collected(Best(w)) == Collected(Best(t))
    ensures PageText(w) == PageText(t)
  {
    BestWrapped(t, w);
    EmitIsBlind();
    CollectedWrapped(Best(t), Best(w));
  }
}
