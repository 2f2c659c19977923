/** fetch/extract.go: what the lines of a page are. A page breaks exactly where a paragraph starts or its text
    has a newline. */
module Paragraphs {
  import opened Dom
  import opened Readability
  import opened Text

  /** Elements that start a new paragraph. */
  predicate IsBreak(n: Node) {
    n.kind == Element && n.data in {"p", "h1", "h2", "h3", "li", "blockquote"}
  }

  /** The text nodes among ns put together between one paragraph start and the next. */
  function Cuts(ns: seq<Node>): (cuts: seq<string>)
    ensures cuts != []
  {
    if ns == [] then [""] else CutOnce(Cuts(ns[..|ns| - 1]), ns[|ns| - 1])
  }

  /** One more node. */
  function CutOnce(cuts: seq<string>, n: Node): (more: seq<string>)
    requires cuts != []
    ensures more != []
  {
    var m := |cuts| - 1;
    if IsBreak(n) then cuts + [""]
    else if n.kind == Characters then cuts[..m] + [cuts[m] + n.data]
    else cuts
  }

  /** What the walk over ns writes. */
  function Written(ns: seq<Node>): string {
    Fold(Emit, "", ns)
  }

  lemma {:induction false} JoinSnoc(ls: seq<string>, l: string, sep: string)
    requires ls != []
    ensures Join(ls + [l], sep) == Join(ls, sep) + sep + l
  {
    var longer := ls + [l];
    assert longer[0] == ls[0] && longer[1..] == ls[1..] + [l];
    if |ls| == 1 {
      assert longer[1..] == [l];
    } else {
      JoinSnoc(ls[1..], l, sep);
      assert ls[0] + sep + (Join(ls[1..], sep) + sep + l) == (ls[0] + sep + Join(ls[1..], sep)) + sep + l;
    }
  }

  lemma JoinGrows(ls: seq<string>, more: string, sep: string)
    requires ls != []
    ensures Join(ls[..|ls| - 1] + [ls[|ls| - 1] + more], sep) == Join(ls, sep) + more
  {
    var m := |ls| - 1;
    var first, last := ls[..m], ls[m];
    assert ls == first + [last];
    if m > 0 {
      JoinSnoc(first, last, sep);
      JoinSnoc(first, last + more, sep);
      assert Join(first, sep) + sep + (last + more) == (Join(first, sep) + sep + last) + more;
    } else {
      assert first + [last + more] == [last + more] && ls == [last];
    }
  }

  lemma WritesOnce(cuts: seq<string>, n: Node)
    requires cuts != []
    ensures Emit(Join(cuts, "\n\n"), n) == Join(CutOnce(cuts, n), "\n\n")
  {
    if IsBreak(n) {
      JoinSnoc(cuts, "", "\n\n");
      assert Join(cuts, "\n\n") + "\n\n" + "" == Join(cuts, "\n\n") + "\n\n";
    } else if n.kind == Characters {
      JoinGrows(cuts, n.data, "\n\n");
    }
  }

  /** The walk writes the cuts with a blank line between them. */
  lemma {:induction false} WritesCuts(ns: seq<Node>)
    ensures Written(ns) == Join(Cuts(ns), "\n\n")
  {
    if ns != [] {
      WritesCuts(ns[..|ns| - 1]);
      WritesOnce(Cuts(ns[..|ns| - 1]), ns[|ns| - 1]);
    }
  }

  lemma {:induction false} LinesAcross(a: string, b: string)
    ensures Lines(a + "\n" + b) == Lines(a) + Lines(b)
  {
    var s := a + "\n" + b;
    if a == "" {
      assert s[1..] == b;
    } else {
      assert s[0] == a[0] && s[1..] == a[1..] + "\n" + b;
      LinesAcross(a[1..], b);
    }
  }

  /** The lines that normalize keeps of a text: trimmed and not blank. */
  function PageLines(s: string): seq<string> {
    Kept(Lines(s))
  }

  /** A newline separates the lines of a text. */
  lemma NewlineSplits(a: string, b: string)
    ensures PageLines(a + "\n" + b) == PageLines(a) + PageLines(b)
  {
    LinesAcross(a, b);
    KeptAppend(Lines(a), Lines(b));
  }

  lemma NoLines()
    ensures PageLines("") == []
  {
    assert [""][..0] == [];
  }

  /** So does a blank line. */
  lemma BlankLineSplits(a: string, b: string)
    ensures PageLines(a + "\n\n" + b) == PageLines(a) + PageLines(b)
  {
    var tail := "" + "\n" + b;
    assert a + "\n\n" + b == a + "\n" + tail;
    NewlineSplits(a, tail);
    NewlineSplits("", b);
    NoLines();
    assert PageLines(a) + ([] + PageLines(b)) == PageLines(a) + PageLines(b);
  }

  lemma {:induction false} WrittenFrom(sb: string, ns: seq<Node>)
    ensures Fold(Emit, sb, ns) == sb + Written(ns)
  {
    if ns == [] {
      assert sb + "" == sb;
    } else {
      var m := |ns| - 1;
      WrittenFrom(sb, ns[..m]);
      assert (sb + Written(ns[..m])) + "\n\n" == sb + (Written(ns[..m]) + "\n\n");
      assert (sb + Written(ns[..m])) + ns[m].data == sb + (Written(ns[..m]) + ns[m].data);
    }
  }

  /** Splitting a walk at any paragraph start splits the page's lines there. */
  lemma ParagraphSplitsPage(a: seq<Node>, p: Node, b: seq<Node>)
    requires IsBreak(p)
    ensures PageLines(Written(a + [p] + b)) == PageLines(Written(a)) + PageLines(Written(b))
  {
    FoldAppend(Emit, "", a + [p], b);
    FoldAppend(Emit, "", a, [p]);
    FoldOne(Emit, Written(a), p);
    WrittenFrom(Written(a) + "\n\n", b);
    BlankLineSplits(Written(a), Written(b));
  }

  /** Without a paragraph start the text nodes are put together as they are. */
  lemma {:induction false} StretchIsConcat(ns: seq<Node>)
    requires forall n :: n in ns ==> !IsBreak(n)
    ensures Written(ns) == Concat(Leaves(ns))
  {
    if ns != [] {
      var before, n := ns[..|ns| - 1], ns[|ns| - 1];
      StretchIsConcat(before);
      if n.kind == Characters {
        ConcatSnoc(Leaves(before), n.data);
      } else {
        assert n in ns;
        assert Leaves(before) + [] == Leaves(before);
      }
    }
  }

  /** The kept lines of all the cuts, in order. */
  function LinesOfAll(cuts: seq<string>): seq<string> {
    if cuts == [] then [] else LinesOfAll(cuts[..|cuts| - 1]) + PageLines(cuts[|cuts| - 1])
  }

  lemma LinesOfOne(cut: string)
    ensures Join([cut], "\n\n") == cut && LinesOfAll([cut]) == PageLines(cut)
  {
    assert [cut][..0] == [] && LinesOfAll([]) == [];
    assert [] + PageLines(cut) == PageLines(cut);
  }

  lemma LinesOfMore(cuts: seq<string>, first: seq<string>, cut: string)
    requires first != [] && cuts == first + [cut] && PageLines(Join(first, "\n\n")) == LinesOfAll(first)
    ensures PageLines(Join(cuts, "\n\n")) == LinesOfAll(cuts)
  {
    assert cuts[..|cuts| - 1] == first;
    JoinSnoc(first, cut, "\n\n");
    BlankLineSplits(Join(first, "\n\n"), cut);
  }

  lemma {:induction false} LinesOfJoin(cuts: seq<string>)
    requires cuts != []
    ensures PageLines(Join(cuts, "\n\n")) == LinesOfAll(cuts)
  {
    var first, cut := cuts[..|cuts| - 1], cuts[|cuts| - 1];
    if first == [] {
      LinesOfOne(cut);
      assert cuts == [cut];
    } else {
      LinesOfJoin(first);
      LinesOfMore(cuts, first, cut);
    }
  }

  /** The page of a document: the lines of its container's visible text, paragraph by paragraph, each trimmed, none
      blank, with a blank line between any two. */
  lemma PageIsCuts(doc: Node)
    ensures var cuts := Cuts(Preorder(Best(doc), Visible));
      && PageText(doc) == Normalize(Join(cuts, "\n\n"))
      && PageText(doc) == Join(LinesOfAll(cuts), "\n\n")
  {
    var walk := Preorder(Best(doc), Visible);
    WritesCuts(walk);
    LinesOfJoin(Cuts(walk));
  }
}
