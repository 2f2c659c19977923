/** Text as the extractor sees it: characters, their UTF-8 width, white space, lines. */
module Text {

  /** The characters Go's unicode.IsSpace accepts, which strings.TrimSpace removes. */
  predicate IsSpace(c: char) {
    var n := c as int;
    || 0x09 <= n <= 0x0D || n == 0x20 || n == 0x85 || n == 0xA0 || n == 0x1680
    || 0x2000 <= n <= 0x200A || n == 0x2028 || n == 0x2029 || n == 0x202F || n == 0x205F || n == 0x3000
  }

  /** Number of bytes of a character in UTF-8. */
  function Width(c: char): (w: nat)
    ensures 1 <= w <= 4
  {
    var n := c as int;
    if n < 0x80 then 1 else if n < 0x800 then 2 else if n < 0x1_0000 then 3 else 4
  }

  /** len(s): Go strings are measured in bytes. */
  function Bytes(s: string): (n: nat)
    ensures n == 0 <==> s == ""
  {
    if s == "" then 0 else Width(s[0]) + Bytes(s[1..])
  }

  lemma {:induction false} BytesAppend(s: string, t: string)
    ensures Bytes(s + t) == Bytes(s) + Bytes(t)
  {
    if s == "" {
      assert s + t == t;
    } else {
      assert (s + t)[1..] == s[1..] + t;
      BytesAppend(s[1..], t);
    }
  }

  /** The characters of s that are not white space, in order. */
  function NonSpace(s: string): string {
    if s == "" then "" else (if IsSpace(s[0]) then "" else [s[0]]) + NonSpace(s[1..])
  }

  lemma {:induction false} NonSpaceAppend(s: string, t: string)
    ensures NonSpace(s + t) == NonSpace(s) + NonSpace(t)
  {
    if s == "" {
      assert s + t == t;
    } else {
      assert (s + t)[1..] == s[1..] + t;
      NonSpaceAppend(s[1..], t);
    }
  }

  function Concat(ss: seq<string>): string {
    if ss == [] then "" else Concat(ss[..|ss| - 1]) + ss[|ss| - 1]
  }

  lemma ConcatSnoc(ss: seq<string>, s: string)
    ensures Concat(ss + [s]) == Concat(ss) + s
  {
    assert (ss + [s])[..|ss|] == ss;
  }

  lemma {:induction false} ConcatAppend(a: seq<string>, b: seq<string>)
    ensures Concat(a + b) == Concat(a) + Concat(b)
  {
    if b == [] {
      assert a + b == a;
    } else {
      var m := |b| - 1;
      assert (a + b)[..|a + b| - 1] == a + b[..m];
      ConcatAppend(a, b[..m]);
    }
  }

  // ---- Trimming -------------------------------------------------------------------------

  function TrimLeft(s: string): (t: string)
    ensures |t| <= |s|
    ensures t != "" ==> !IsSpace(t[0])
  {
    if s != "" && IsSpace(s[0]) then TrimLeft(s[1..]) else s
  }

  function TrimRight(s: string): (t: string)
    ensures |t| <= |s|
    ensures t != "" ==> !IsSpace(t[|t| - 1]) && t[0] == s[0]
  {
    if s != "" && IsSpace(s[|s| - 1]) then TrimRight(s[..|s| - 1]) else s
  }

  /** strings.TrimSpace. */
  function Trim(s: string): string {
    TrimRight(TrimLeft(s))
  }

  predicate Trimmed(s: string) {
    s != "" ==> !IsSpace(s[0]) && !IsSpace(s[|s| - 1])
  }

  lemma {:induction false} TrimLeftKeeps(s: string)
    ensures NonSpace(TrimLeft(s)) == NonSpace(s)
    ensures forall c :: c in TrimLeft(s) ==> c in s
  {
    if s != "" && IsSpace(s[0]) {
      TrimLeftKeeps(s[1..]);
    }
  }

  lemma {:induction false} TrimRightKeeps(s: string)
    ensures NonSpace(TrimRight(s)) == NonSpace(s)
    ensures forall c :: c in TrimRight(s) ==> c in s
  {
    if s != "" && IsSpace(s[|s| - 1]) {
      var m := |s| - 1;
      TrimRightKeeps(s[..m]);
      assert s == s[..m] + [s[m]];
      NonSpaceAppend(s[..m], [s[m]]);
      assert NonSpace([s[m]]) == "";
    }
  }

  /** TrimSpace removes white space only, leaves none at either end, and adds no character. */
  lemma TrimKeeps(s: string)
    ensures NonSpace(Trim(s)) == NonSpace(s)
    ensures Trimmed(Trim(s))
    ensures forall c :: c in Trim(s) ==> c in s
  {
    TrimLeftKeeps(s);
    TrimRightKeeps(TrimLeft(s));
  }

  predicate AllSpace(s: string) {
    forall c :: c in s ==> IsSpace(c)
  }

  lemma {:induction false} TrimLeftCuts(s: string) returns (i: nat)
    ensures i <= |s| && TrimLeft(s) == s[i..] && AllSpace(s[..i])
  {
    if s != "" && IsSpace(s[0]) {
      i := TrimLeftCuts(s[1..]);
      assert s[..i + 1] == [s[0]] + s[1..][..i];
      i := i + 1;
    } else {
      i := 0;
    }
  }

  lemma {:induction false} TrimRightCuts(s: string) returns (j: nat)
    ensures j <= |s| && TrimRight(s) == s[..j] && AllSpace(s[j..])
  {
    var m := |s| - 1;
    if s != "" && IsSpace(s[m]) {
      j := TrimRightCuts(s[..m]);
      assert s[j..] == s[..m][j..] + [s[m]];
    } else {
      j := |s|;
    }
  }

  /** TrimSpace cuts a stretch of white space off each end and nothing else. */
  lemma TrimCutsEnds(s: string)
    ensures exists i, j :: 0 <= i <= j <= |s| && Trim(s) == s[i..j] && AllSpace(s[..i]) && AllSpace(s[j..])
  {
    var i := TrimLeftCuts(s);
    var j := TrimRightCuts(s[i..]);
    assert s[i..][..j] == s[i..i + j] && s[i..][j..] == s[i + j..];
  }

  // ---- Lines ----------------------------------------------------------------------------

  /** strings.Split(s, "\n"). */
  function Lines(s: string): (ls: seq<string>)
    ensures |ls| >= 1
  {
    if s == "" then [""]
    else
      var rest := Lines(s[1..]);
      if s[0] == '\n' then [""] + rest else [[s[0]] + rest[0]] + rest[1..]
  }

  /** strings.Join. */
  function Join(ls: seq<string>, sep: string): string {
    if ls == [] then ""
    else if |ls| == 1 then ls[0]
    else ls[0] + sep + Join(ls[1..], sep)
  }

  lemma {:induction false} JoinHead(l: string, ls: seq<string>, sep: string, c: char)
    requires ls != []
    ensures Join([[c] + ls[0]] + ls[1..], sep) == [c] + Join(ls, sep)
  {
    var ms := [[c] + ls[0]] + ls[1..];
    if |ls| > 1 {
      assert ms[1..] == ls[1..];
      calc {
        Join(ms, sep);
        ([c] + ls[0]) + sep + Join(ls[1..], sep);
        [c] + (ls[0] + sep + Join(ls[1..], sep));
        [c] + Join(ls, sep);
      }
    }
  }

  /** Splitting at newlines and joining with newlines gives the string back; no line holds one. */
  lemma {:induction false} LinesJoin(s: string)
    ensures Join(Lines(s), "\n") == s
    ensures forall l :: l in Lines(s) ==> '\n' !in l
  {
    if s != "" {
      var rest := Lines(s[1..]);
      LinesJoin(s[1..]);
      assert s == [s[0]] + s[1..];
      if s[0] == '\n' {
        assert ([""] + rest)[1..] == rest;
        assert Join([""] + rest, "\n") == "" + "\n" + Join(rest, "\n");
      } else {
        JoinHead("", rest, "\n", s[0]);
      }
    }
  }

  lemma {:induction false} LinesFirst(l: string, rest: string)
    requires '\n' !in l
    ensures Lines(l + "\n" + rest) == [l] + Lines(rest)
    ensures Lines(l) == [l]
  {
    var s := l + "\n" + rest;
    if l == "" {
      assert s[1..] == rest;
    } else {
      assert s[1..] == l[1..] + "\n" + rest;
      LinesFirst(l[1..], rest);
      assert l == [l[0]] + l[1..] && l[0] in l;
    }
  }

  // ---- normalize ------------------------------------------------------------------------

  /** The trimmed lines that are not empty, in order. */
  function Kept(ls: seq<string>): seq<string> {
    if ls == [] then []
    else Kept(ls[..|ls| - 1]) + if Trim(ls[|ls| - 1]) != "" then [Trim(ls[|ls| - 1])] else []
  }

  function Normalize(s: string): string {
    Join(Kept(Lines(s)), "\n\n")
  }

  /** normalize: splits, trims, drops blank lines, joins with a blank line. */
  method NormalizeText(s: string) returns (r: string)
    ensures r == Normalize(s)
  {
    var lines := Lines(s);
    var out: seq<string> := [];
    for i := 0 to |lines|
      invariant out == Kept(lines[..i])
    {
      assert lines[..i + 1][..i] == lines[..i];
      var l := Trim(lines[i]);
      if l != "" {
        out := out + [l];
      }
    }
    assert lines[..|lines|] == lines;
    r := Join(out, "\n\n");
  }

  /** A line that normalize would neither drop nor change. */
  predicate GoodLine(l: string) {
    l != "" && Trimmed(l) && '\n' !in l
  }

  /** The shape normalize promises: good lines, one blank line between neighbours. */
  ghost predicate NormalForm(t: string) {
    exists ls: seq<string> :: (forall l :: l in ls ==> GoodLine(l)) && t == Join(ls, "\n\n")
  }

  lemma {:induction false} KeptGood(ls: seq<string>)
    requires forall l :: l in ls ==> '\n' !in l
    ensures forall l :: l in Kept(ls) ==> GoodLine(l)
  {
    if ls != [] {
      var m := |ls| - 1;
      KeptGood(ls[..m]);
      TrimKeeps(ls[m]);
      assert ls[m] in ls;
    }
  }

  lemma {:induction false} KeptAppend(a: seq<string>, b: seq<string>)
    ensures Kept(a + b) == Kept(a) + Kept(b)
  {
    if b == [] {
      assert a + b == a;
    } else {
      var m := |b| - 1;
      assert (a + b)[..|a + b| - 1] == a + b[..m];
      KeptAppend(a, b[..m]);
    }
  }

  lemma GoodLineKept(l: string)
    requires GoodLine(l)
    ensures Kept([l]) == [l] && Kept([""]) == []
  {
    assert [l][..0] == [] && [""][..0] == [];
  }

  /** A line can be kept apart from the lines after it. */
  lemma KeptFirst(l: string, rest: string)
    requires '\n' !in l
    ensures Kept(Lines(l + "\n" + rest)) == Kept([l]) + Kept(Lines(rest))
  {
    LinesFirst(l, rest);
    KeptAppend([l], Lines(rest));
  }

  /** A good line with a blank line after it is kept, and what follows is kept as if alone. */
  lemma KeptOfHead(l: string, rest: string)
    requires GoodLine(l)
    ensures Kept(Lines(l + "\n\n" + rest)) == [l] + Kept(Lines(rest))
  {
    var tail := "" + "\n" + rest;
    calc {
      Kept(Lines(l + "\n\n" + rest));
      { assert l + "\n\n" + rest == l + "\n" + tail; }
      Kept(Lines(l + "\n" + tail));
      { KeptFirst(l, tail); }
      Kept([l]) + Kept(Lines(tail));
      { KeptFirst("", rest); }
      Kept([l]) + (Kept([""]) + Kept(Lines(rest)));
      { GoodLineKept(l); }
      [l] + Kept(Lines(rest));
    }
  }

  /** Splitting a joined text again and keeping its lines returns exactly the lines joined. */
  lemma {:induction false} KeptOfJoined(ls: seq<string>)
    requires forall l :: l in ls ==> GoodLine(l)
    ensures Kept(Lines(Join(ls, "\n\n"))) == ls
  {
    if ls == [] {
      assert [""][..0] == [];
      assert Kept([""]) == [];
    } else {
      if |ls| == 1 {
        GoodLineKept(ls[0]);
        LinesFirst(ls[0], "");
        assert ls == [ls[0]];
      } else {
        KeptOfHead(ls[0], Join(ls[1..], "\n\n"));
        KeptOfJoined(ls[1..]);
        assert ls == [ls[0]] + ls[1..];
      }
    }
  }

  /** normalize lands in the normal form, and a text is a fixed point exactly when it is in it. */
  lemma NormalizeFixedPoints(s: string)
    ensures NormalForm(Normalize(s))
    ensures Normalize(s) == s <==> NormalForm(s)
  {
    LinesJoin(s);
    KeptGood(Lines(s));
    if NormalForm(s) {
      var ls :| (forall l :: l in ls ==> GoodLine(l)) && s == Join(ls, "\n\n");
      KeptOfJoined(ls);
    }
  }

  /** normalize is idempotent on every string. */
  lemma NormalizeIdempotent(s: string)
    ensures Normalize(Normalize(s)) == Normalize(s)
  {
    NormalizeFixedPoints(s);
    NormalizeFixedPoints(Normalize(s));
  }

  lemma {:induction false} NonSpaceJoin(ls: seq<string>, sep: string)
    requires NonSpace(sep) == ""
    ensures NonSpace(Join(ls, sep)) == NonSpace(Concat(ls))
  {
    if |ls| == 1 {
      ConcatSnoc([], ls[0]);
      assert [] + [ls[0]] == ls && "" + ls[0] == ls[0];
    } else if |ls| > 1 {
      NonSpaceJoin(ls[1..], sep);
      var tail := Join(ls[1..], sep);
      NonSpaceAppend(ls[0] + sep, tail);
      NonSpaceAppend(ls[0], sep);
      assert [ls[0]] + ls[1..] == ls;
      ConcatAppend([ls[0]], ls[1..]);
      ConcatSnoc([], ls[0]);
      assert [] + [ls[0]] == [ls[0]] && "" + ls[0] == ls[0];
      NonSpaceAppend(ls[0], Concat(ls[1..]));
    }
  }

  lemma {:induction false} KeptKeeps(ls: seq<string>)
    ensures NonSpace(Concat(Kept(ls))) == NonSpace(Concat(ls))
  {
    if ls != [] {
      var m := |ls| - 1;
      KeptKeeps(ls[..m]);
      TrimKeeps(ls[m]);
      NonSpaceAppend(Concat(ls[..m]), ls[m]);
      var kept := Kept(ls[..m]);
      NonSpaceAppend(Concat(kept), Trim(ls[m]));
      ConcatSnoc(kept, Trim(ls[m]));
      assert kept + [] == kept;
    }
  }

  /** normalize adds, drops and reorders white space only. */
  lemma NormalizeKeepsText(s: string)
    ensures NonSpace(Normalize(s)) == NonSpace(s)
  {
    LinesJoin(s);
    assert NonSpace("\n") == "" && NonSpace("\n\n") == "" by {
      assert "\n\n"[1..] == "\n" && "\n"[1..] == "";
    }
    NonSpaceJoin(Lines(s), "\n");
    KeptKeeps(Lines(s));
    NonSpaceJoin(Kept(Lines(s)), "\n\n");
  }
}
