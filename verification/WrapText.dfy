/**
 * Wrapping a diagram's texts (server/src/diagram.ts, wrapText): lines are filled with words and pieces of
 * words, then tightened while their number stays the same.
 */
module WrapText {
  import opened LineBreaks
  import opened WordPieces

  /* ── Tightening ────────────────────────────────────────────────────── */

  /** At most `n` lines, none wider than the limit. */
  ghost predicate Feasible(parts: seq<string>, n: nat, limit: real, style: Style) {
    exists lines :: |lines| <= n && Flat(lines) == parts
      && forall l :: l in lines ==> l != [] && LineWidth(l, style) <= limit
  }

  /** The source's test: not more lines than before, and no line without a space is too wide. */
  predicate Accepts(tighter: seq<string>, n: nat, limit: real, style: Style) {
    |tighter| <= n && !exists l :: l in tighter && Width(l, style) > limit && ' ' !in l
  }

  /** Parts of lines: words and pieces of words. */
  predicate Bare(parts: seq<string>) {
    forall p :: p in parts ==> p != "" && NoSpace(p)
  }

  lemma SpacesShowJoins(line: seq<string>)
    requires line != [] && Bare(line)
    ensures ' ' in Join(line, " ") <==> |line| > 1
  {
    if |line| > 1 {
      var n := |line| - 1;
      var start := Join(line[..n], " ");
      assert (start + " " + line[n])[|start|] == ' ';
    } else {
      assert line[0] in line && IsSpace(' ');
    }
  }

  lemma {:induction false} FlatFinds<T>(lists: seq<seq<T>>, x: T) returns (i: nat, k: nat)
    requires x in Flat(lists)
    ensures i < |lists| && k < |lists[i]| && lists[i][k] == x
  {
    if x in lists[0] {
      i := 0;
      k :| 0 <= k < |lists[0]| && lists[0][k] == x;
    } else {
      i, k := FlatFinds(lists[1..], x);
      i := i + 1;
    }
  }

  lemma LinesAreBare(lines: seq<seq<string>>, i: nat)
    requires i < |lines| && Bare(Flat(lines))
    ensures Bare(lines[i])
  {
    FlatHolds(lines, i);
  }

  lemma AcceptedIsFeasible(parts: seq<string>, n: nat, limit: real, style: Style)
    requires Measures(style) && style.glue == " " && Bare(parts) && parts != []
    requires Accepts(Lines(parts, limit, style), n, limit, style)
    ensures Feasible(parts, n, limit, style)
  {
    var lines := Fill(parts, limit, style);
    FillBreaks(parts, limit, style);
    forall l | l in lines ensures l != [] && LineWidth(l, style) <= limit {
      assert Fits(l, limit, style);
      var i :| 0 <= i < |lines| && lines[i] == l;
      LinesAreBare(lines, i);
      SpacesShowJoins(l);
      assert Joins(lines, " ")[i] == Join(l, " ");
    }
  }

  lemma FeasibleIsAccepted(parts: seq<string>, n: nat, limit: real, style: Style)
    requires Measures(style) && style.glue == " " && Bare(parts) && parts != []
    requires Feasible(parts, n, limit, style)
    ensures Accepts(Lines(parts, limit, style), n, limit, style)
  {
    var given :| |given| <= n && Flat(given) == parts
      && forall l :: l in given ==> l != [] && LineWidth(l, style) <= limit;
    assert Breaks(given, parts, limit, style);
    FillHasFewestLines(parts, limit, style, given);
    FillBreaks(parts, limit, style);
    var lines := Fill(parts, limit, style);
    forall t | t in Joins(lines, " ") && ' ' !in t ensures Width(t, style) <= limit {
      var i :| 0 <= i < |lines| && t == Join(lines[i], " ");
      var l := lines[i];
      assert l in lines && Fits(l, limit, style);
      LinesAreBare(lines, i);
      SpacesShowJoins(l);
      if |l| == 1 {
        FlatHolds(lines, i);
        assert l[0] in l;
        var g, k := FlatFinds(given, l[0]);
        assert given[g] in given;
        PartIsNarrower(given[g], k, style);
      }
    }
  }

  lemma LooserIsFeasible(parts: seq<string>, n: nat, limit: real, looser: real, style: Style)
    requires limit <= looser && Feasible(parts, n, limit, style)
    ensures Feasible(parts, n, looser, style)
  {
    var lines :| |lines| <= n && Flat(lines) == parts
      && forall l :: l in lines ==> l != [] && LineWidth(l, style) <= limit;
    assert forall l :: l in lines ==> l != [] && LineWidth(l, style) <= looser;
  }

  /** A tighter limit never gives fewer lines. */
  lemma TighterIsLonger(parts: seq<string>, limit: real, looser: real, style: Style)
    requires Measures(style) && limit <= looser
    ensures |Lines(parts, looser, style)| <= |Lines(parts, limit, style)|
  {
    var lines := Fill(parts, limit, style);
    FillBreaks(parts, limit, style);
    assert forall l :: l in lines ==> Fits(l, limit, style) && Fits(l, looser, style);
    FillHasFewestLines(parts, looser, style, lines);
  }

  /** Lines filled with `limit`, the same number as with `max`; `limit` was lowered only if the parts fit in it. */
  ghost predicate Tightened(parts: seq<string>, max: real, style: Style, limit: real, lines: seq<string>) {
    && limit <= max && lines == Lines(parts, limit, style) && |lines| == |Lines(parts, max, style)|
    && (limit < max ==> limit > max / 3.0 && Feasible(parts, |lines|, limit, style))
  }

  /** And the limit, lowered by steps of 6 down to a third, was lowered as long as they do. */
  ghost predicate Balanced(parts: seq<string>, max: real, style: Style, limit: real, lines: seq<string>) {
    && Tightened(parts, max, style, limit, lines)
    && forall t :: max / 3.0 < t <= limit - 6.0 && |lines| > 1 ==> !Feasible(parts, |lines|, t, style)
  }

  lemma TightenStep(parts: seq<string>, max: real, style: Style, limit: real, lines: seq<string>, next: real)
    requires Measures(style) && style.glue == " " && Bare(parts) && Tightened(parts, max, style, limit, lines)
    requires |lines| > 1 && limit >= next > max / 3.0 && Accepts(Lines(parts, next, style), |lines|, next, style)
    ensures Tightened(parts, max, style, next, Lines(parts, next, style))
  {
    AcceptedIsFeasible(parts, |lines|, next, style);
    TighterIsLonger(parts, next, max, style);
  }

  lemma NoTighterOne(parts: seq<string>, n: nat, next: real, style: Style, t: real)
    requires Measures(style) && style.glue == " " && Bare(parts) && parts != []
    requires !Accepts(Lines(parts, next, style), n, next, style) && t <= next
    ensures !Feasible(parts, n, t, style)
  {
    if Feasible(parts, n, t, style) {
      LooserIsFeasible(parts, n, t, next, style);
      FeasibleIsAccepted(parts, n, next, style);
    }
  }

  method Balance(parts: seq<string>, max: real, style: Style) returns (lines: seq<string>)
    requires Measures(style) && style.glue == " " && Bare(parts)
    ensures exists limit :: Balanced(parts, max, style, limit, lines)
  {
    lines := FillLines(parts, max, style);
    ghost var limit := max;
    var next := max - 6.0;
    while |lines| > 1 && next > max / 3.0
      invariant next == limit - 6.0 && Tightened(parts, max, style, limit, lines)
      decreases next - max / 3.0
    {
      var tighter := FillLines(parts, next, style);
      if !Accepts(tighter, |lines|, next, style) {
        forall t | t <= next ensures !Feasible(parts, |lines|, t, style) {
          NoTighterOne(parts, |lines|, next, style, t);
        }
        assert Balanced(parts, max, style, limit, lines);
        return;
      }
      TightenStep(parts, max, style, limit, lines, next);
      lines, limit := tighter, next;
      next := next - 6.0;
    }
    assert Balanced(parts, max, style, limit, lines);
  }

  /* ── The whole ─────────────────────────────────────────────────────── */

  lemma {:induction false} PiecesAreBare(words: seq<string>, max: real, measure: char -> real)
    requires Bare(words)
    ensures Flat(PiecesOfAll(words, max, measure)) == Flat(words)
    ensures forall p :: p in PiecesOfAll(words, max, measure) ==>
      p != "" && NoSpace(p) && (Width(p, Style("", measure)) <= max || |p| == 1)
  {
    if words != [] {
      var pieces := Pieces(words[0], max, measure);
      assert words[0] in words && forall w :: w in words[1..] ==> w in words;
      PiecesAreBare(words[1..], max, measure);
      PiecesMakeTheWord(words[0], max, measure);
      FlatAdds(pieces, PiecesOfAll(words[1..], max, measure));
      forall p | p in pieces ensures NoSpace(p) {
        var i :| 0 <= i < |pieces| && pieces[i] == p;
        FlatHolds(pieces, i);
      }
    }
  }

  /** Parts of a line: its words, in pieces if they are too long. */
  function LineParts(line: string, max: real, measure: char -> real): seq<string> {
    PiecesOfAll(SplitWords(line), max, measure)
  }

  lemma LinePartsAreBare(line: string, max: real, measure: char -> real)
    ensures Flat(LineParts(line, max, measure)) == Ink(line) && Bare(LineParts(line, max, measure))
    ensures forall p :: p in LineParts(line, max, measure) ==> Width(p, Style("", measure)) <= max || |p| == 1
  {
    WordsAreInk(line);
    PiecesAreBare(SplitWords(line), max, measure);
  }

  /** `block` is what one line of the author's becomes. */
  ghost predicate Wrapped(line: string, max: real, measure: char -> real, block: seq<string>) {
    exists limit :: Balanced(LineParts(line, max, measure), max, Style(" ", measure), limit, block)
  }

  method WrapLine(line: string, max: real, measure: char -> real) returns (block: seq<string>)
    requires Measures(Style(" ", measure))
    ensures Wrapped(line, max, measure, block)
  {
    var words := SplitWords(line);
    var parts := [];
    WordsAreInk(line);
    assert words[0..] == words;
    for k := 0 to |words|
      invariant parts + PiecesOfAll(words[k..], max, measure) == PiecesOfAll(words, max, measure)
    {
      assert words[k] in words && words[k..][1..] == words[k + 1..];
      var pieces := CutWord(words[k], max, measure);
      Associates(parts, pieces, PiecesOfAll(words[k + 1..], max, measure));
      parts := parts + pieces;
    }
    assert parts == LineParts(line, max, measure);
    LinePartsAreBare(line, max, measure);
    block := Balance(parts, max, Style(" ", measure));
  }

  /* ── What the lines are worth ──────────────────────────────────────── */

  lemma InkOfSpace(head: string, rest: string)
    ensures Ink(head + " " + rest) == Ink(head) + Ink(rest)
  {
    InkAdds(head + " ", rest);
    InkAdds(head, " ");
  }

  lemma {:induction false} InkOfJoin(line: seq<string>)
    requires Bare(line)
    ensures Ink(Join(line, " ")) == Flat(line)
  {
    if |line| == 1 {
      assert line[0] in line;
      InkOfNoSpace(line[0]);
    } else if |line| > 1 {
      var n := |line| - 1;
      assert line[n] in line && forall p :: p in line[..n] ==> p in line;
      InkOfJoin(line[..n]);
      InkOfSpace(Join(line[..n], " "), line[n]);
      InkOfNoSpace(line[n]);
      FlatAdds(line[..n], [line[n]]);
      assert line[..n] + [line[n]] == line;
    }
  }

  lemma {:induction false} InkOfJoins(lines: seq<seq<string>>)
    requires Bare(Flat(lines))
    ensures Ink(Flat(Joins(lines, " "))) == Flat(Flat(lines))
  {
    if lines != [] {
      LinesAreBare(lines, 0);
      assert forall p :: p in Flat(lines[1..]) ==> p in Flat(lines);
      InkOfJoin(lines[0]);
      InkOfJoins(lines[1..]);
      assert Joins(lines, " ")[1..] == Joins(lines[1..], " ");
      InkAdds(Join(lines[0], " "), Flat(Joins(lines[1..], " ")));
      FlatAdds(lines[0], Flat(lines[1..]));
    }
  }

  /** A line loses nothing but white space. */
  lemma BlockKeepsInk(line: string, max: real, measure: char -> real, block: seq<string>)
    requires Wrapped(line, max, measure, block)
    ensures Ink(Flat(block)) == Ink(line)
  {
    var parts, style := LineParts(line, max, measure), Style(" ", measure);
    var limit :| Balanced(parts, max, style, limit, block);
    LinePartsAreBare(line, max, measure);
    if parts != [] {
      FillBreaks(parts, limit, style);
      InkOfJoins(Fill(parts, limit, style));
    }
  }

  /** Every line of a block fits, unless it is blank or one character too wide on its own. */
  lemma BlockFits(line: string, max: real, measure: char -> real, block: seq<string>, i: nat)
    requires Measures(Style(" ", measure)) && i < |block| && Wrapped(line, max, measure, block)
    ensures Width(block[i], Style(" ", measure)) <= max || |block[i]| <= 1
  {
    var parts, style := LineParts(line, max, measure), Style(" ", measure);
    var limit :| Balanced(parts, max, style, limit, block);
    LinePartsAreBare(line, max, measure);
    if parts != [] {
      var lines := Fill(parts, limit, style);
      FillBreaks(parts, limit, style);
      assert lines[i] in lines && Fits(lines[i], limit, style);
      if |lines[i]| == 1 {
        FlatHolds(lines, i);
        assert lines[i][0] in lines[i];
        WidthIgnoresGlue(lines[i][0], "", " ", measure);
      }
    }
  }

  /** No way to break the parts has fewer lines than the block: balancing costs none. */
  lemma BlockIsShortest(line: string, max: real, measure: char -> real, block: seq<string>, other: seq<seq<string>>)
    requires Measures(Style(" ", measure)) && Wrapped(line, max, measure, block)
    requires Breaks(other, LineParts(line, max, measure), max, Style(" ", measure))
    ensures |block| <= if LineParts(line, max, measure) == [] then 1 else |other|
  {
    if LineParts(line, max, measure) != [] {
      FillHasFewestLines(LineParts(line, max, measure), max, Style(" ", measure), other);
    }
  }

  lemma {:induction false} ShortWordsStayWhole(words: seq<string>, max: real, measure: char -> real)
    requires forall w :: w in words ==> Width(w, Style("", measure)) <= max
    ensures PiecesOfAll(words, max, measure) == words
  {
    if words != [] {
      assert words[0] in words && forall w :: w in words[1..] ==> w in words;
      ShortWordsStayWhole(words[1..], max, measure);
    }
  }

  lemma PartsOfShortLine(line: string, max: real, measure: char -> real)
    requires Measures(Style(" ", measure)) && Width(Join(SplitWords(line), " "), Style(" ", measure)) <= max
    ensures LineParts(line, max, measure) == SplitWords(line)
  {
    var words := SplitWords(line);
    forall w | w in words ensures Width(w, Style("", measure)) <= max {
      var k :| 0 <= k < |words| && words[k] == w;
      PartIsNarrower(words, k, Style(" ", measure));
      WidthIgnoresGlue(w, "", " ", measure);
    }
    ShortWordsStayWhole(words, max, measure);
  }

  lemma OneLineHolds(parts: seq<string>, limit: real, style: Style)
    requires Measures(style) && |Lines(parts, limit, style)| == 1
    ensures Lines(parts, limit, style) == [Join(parts, style.glue)]
  {
    if parts != [] {
      var lines := Fill(parts, limit, style);
      FillBreaks(parts, limit, style);
      assert Flat(lines) == lines[0] + Flat(lines[1..]) == lines[0];
    }
  }

  /** A line that fits comes out as one: its words, a space between two. */
  lemma ShortLineIsKept(line: string, max: real, measure: char -> real, block: seq<string>)
    requires Measures(Style(" ", measure)) && Wrapped(line, max, measure, block)
    requires Width(Join(SplitWords(line), " "), Style(" ", measure)) <= max
    ensures block == [Join(SplitWords(line), " ")]
  {
    var words, style := SplitWords(line), Style(" ", measure);
    PartsOfShortLine(line, max, measure);
    var limit :| Balanced(words, max, style, limit, block);
    if words != [] {
      assert Flat([words]) == words;
      FillHasFewestLines(words, max, style, [words]);
      FillBreaks(words, max, style);
    }
    OneLineHolds(words, limit, style);
  }

  /** The words of a line, each in its pieces. */
  function Cuts(words: seq<string>, max: real, measure: char -> real): (r: seq<seq<string>>)
    ensures |r| == |words| && forall w :: 0 <= w < |r| ==> r[w] == Pieces(words[w], max, measure)
  {
    if words == [] then [] else [Pieces(words[0], max, measure)] + Cuts(words[1..], max, measure)
  }

  lemma {:induction false} CutsAreParts(words: seq<string>, max: real, measure: char -> real)
    ensures Flat(Cuts(words, max, measure)) == PiecesOfAll(words, max, measure)
  {
    if words != [] {
      CutsAreParts(words[1..], max, measure);
      assert Cuts(words, max, measure)[1..] == Cuts(words[1..], max, measure);
    }
  }

  /** The line, and the place on it, of the n-th part. */
  lemma {:induction false} PlaceOf(lines: seq<seq<string>>, n: nat) returns (j: nat, k: nat)
    requires n < |Flat(lines)|
    ensures j < |lines| && k < |lines[j]| && |Flat(lines[..j])| + k == n
    ensures lines[j][k] == Flat(lines)[n] && (k > 0 ==> lines[j][k - 1] == Flat(lines)[n - 1])
  {
    if n < |lines[0]| {
      j, k := 0, n;
      assert lines[..0] == [];
    } else {
      j, k := PlaceOf(lines[1..], n - |lines[0]|);
      j := j + 1;
      assert lines[..j][0] == lines[0] && lines[..j][1..] == lines[1..][..j - 1];
    }
  }

  /** Two parts that do not fit together are on different lines. */
  lemma CutStartsALine(lines: seq<seq<string>>, parts: seq<string>, limit: real, style: Style, n: nat) returns (j: nat)
    requires Measures(style) && Breaks(lines, parts, limit, style) && 0 < n < |parts|
    requires Width(parts[n - 1] + style.glue + parts[n], style) > limit
    ensures 0 < j < |lines| && |Flat(lines[..j])| == n
  {
    var k;
    j, k := PlaceOf(lines, n);
    assert lines[j] in lines;
    if k > 0 { NeighboursFit(lines[j], limit, style, k - 1); }
    assert lines[..0] == [];
  }

  lemma CutIsWide(word: string, max: real, measure: char -> real, pieces: seq<string>, i: nat)
    requires Measures(Style(" ", measure)) && word != ""
    requires pieces == Pieces(word, max, measure) && i + 1 < |pieces|
    ensures Width(pieces[i] + " " + pieces[i + 1], Style(" ", measure)) > max
  {
    assert Measures(Style("", measure)) by {
      forall c ensures measure(c) >= 0.0 { assert Style(" ", measure).charWidth(c) >= 0.0; }
    }
    PiecesStayApart(word, max, measure, i);
  }

  /** Lists of parts broken into lines: between two parts of one list that do not fit together a new line starts. */
  lemma WideCutEndsLine(cuts: seq<seq<string>>, lines: seq<seq<string>>, limit: real, style: Style, w: nat, i: nat)
    returns (j: nat)
    requires Measures(style) && Breaks(lines, Flat(cuts), limit, style)
    requires w < |cuts| && i + 1 < |cuts[w]|
    requires Width(cuts[w][i] + style.glue + cuts[w][i + 1], style) > limit
    ensures 0 < j < |lines| && |Flat(lines[..j])| == |Flat(cuts[..w])| + i + 1
  {
    FlatAt(cuts, w, i);
    FlatAt(cuts, w, i + 1);
    j := CutStartsALine(lines, Flat(cuts), limit, style, |Flat(cuts[..w])| + i + 1);
  }

  lemma BlockLines(line: string, max: real, measure: char -> real, block: seq<string>)
    returns (lines: seq<seq<string>>, limit: real)
    requires Wrapped(line, max, measure, block) && LineParts(line, max, measure) != []
    ensures block == Joins(lines, " ") && limit <= max
    ensures Breaks(lines, LineParts(line, max, measure), limit, Style(" ", measure))
  {
    var parts, style := LineParts(line, max, measure), Style(" ", measure);
    limit :| Balanced(parts, max, style, limit, block);
    lines := Fill(parts, limit, style);
    FillBreaks(parts, limit, style);
  }

  lemma CutsAreWide(line: string, max: real, measure: char -> real, cuts: seq<seq<string>>, w: nat, i: nat)
    requires Measures(Style(" ", measure)) && cuts == Cuts(SplitWords(line), max, measure)
    requires w < |cuts| && i + 1 < |cuts[w]|
    ensures Flat(cuts) == LineParts(line, max, measure) && Flat(cuts) != []
    ensures Width(cuts[w][i] + " " + cuts[w][i + 1], Style(" ", measure)) > max
  {
    var words := SplitWords(line);
    WordsAreInk(line);
    assert words[w] in words;
    CutsAreParts(words, max, measure);
    FlatAt(cuts, w, i);
    CutIsWide(words[w], max, measure, cuts[w], i);
  }

  /**
   A word is never shown with a space inside: where word `w` is cut, after its piece `i`, the output goes
   to a new line (`j` lines hold the parts before the cut).
   */
  lemma CutsEndLines(line: string, max: real, measure: char -> real, block: seq<string>, w: nat, i: nat)
    returns (lines: seq<seq<string>>, j: nat)
    requires Measures(Style(" ", measure)) && Wrapped(line, max, measure, block)
    requires var cuts := Cuts(SplitWords(line), max, measure); w < |cuts| && i + 1 < |cuts[w]|
    ensures block == Joins(lines, " ") && Flat(lines) == LineParts(line, max, measure)
    ensures 0 < j < |lines| && |Flat(lines[..j])| == |Flat(Cuts(SplitWords(line), max, measure)[..w])| + i + 1
  {
    var cuts := Cuts(SplitWords(line), max, measure);
    CutsAreWide(line, max, measure, cuts, w, i);
    var limit;
    lines, limit := BlockLines(line, max, measure, block);
    j := WideCutEndsLine(cuts, lines, limit, Style(" ", measure), w, i);
  }

  lemma InkOfNewline(head: string, rest: string)
    ensures Ink(head + "\n" + rest) == Ink(head) + Ink(rest)
  {
    InkAdds(head + "\n", rest);
    InkAdds(head, "\n");
  }

  lemma {:induction false} InkOfLines(t: string)
    ensures Ink(Flat(SplitLines(t))) == Ink(t)
    decreases |t|
  {
    var n := LineEnd(t);
    if n < |t| {
      var rest := t[n + 1..];
      InkOfLines(rest);
      InkAdds(t[..n], Flat(SplitLines(rest)));
      InkOfNewline(t[..n], rest);
      assert t == t[..n] + "\n" + rest;
    } else {
      assert Flat([t]) == t;
    }
  }

  lemma {:induction false} InkOfBlocks(lines: seq<string>, blocks: seq<seq<string>>)
    requires |lines| == |blocks| && forall i :: 0 <= i < |lines| ==> Ink(Flat(blocks[i])) == Ink(lines[i])
    ensures Ink(Flat(Flat(blocks))) == Ink(Flat(lines))
  {
    if lines != [] {
      InkOfBlocks(lines[1..], blocks[1..]);
      FlatAdds(blocks[0], Flat(blocks[1..]));
      InkAdds(Flat(blocks[0]), Flat(Flat(blocks[1..])));
      InkAdds(lines[0], Flat(lines[1..]));
    }
  }

  /* ── The whole text ────────────────────────────────────────────────── */

  /** Each line wanted by the author is wrapped on its own: `blocks` holds the lines each one gives. */
  ghost predicate AllWrapped(wanted: seq<string>, max: real, measure: char -> real, blocks: seq<seq<string>>) {
    |blocks| == |wanted| && forall i :: 0 <= i < |blocks| ==> Wrapped(wanted[i], max, measure, blocks[i])
  }

  /** The whole text comes out in order: only white space is lost. */
  lemma NothingIsLost(text: string, max: real, measure: char -> real, blocks: seq<seq<string>>)
    requires AllWrapped(SplitLines(text), max, measure, blocks)
    ensures Ink(Flat(Flat(blocks))) == Ink(text)
  {
    var wanted := SplitLines(text);
    forall i | 0 <= i < |blocks| ensures Ink(Flat(blocks[i])) == Ink(wanted[i]) {
      BlockKeepsInk(wanted[i], max, measure, blocks[i]);
    }
    InkOfBlocks(wanted, blocks);
    InkOfLines(text);
  }

  lemma AllFit(wanted: seq<string>, max: real, measure: char -> real, blocks: seq<seq<string>>, l: string)
    requires Measures(Style(" ", measure)) && AllWrapped(wanted, max, measure, blocks) && l in Flat(blocks)
    ensures Width(l, Style(" ", measure)) <= max || |l| <= 1
  {
    var i, k := FlatFinds(blocks, l);
    BlockFits(wanted[i], max, measure, blocks[i], k);
  }

  /** What wrapping every wanted line is worth for the text. */
  lemma AllWrappedMeans(text: string, max: real, measure: char -> real, blocks: seq<seq<string>>)
    requires Measures(Style(" ", measure)) && AllWrapped(SplitLines(text), max, measure, blocks)
    ensures Ink(Flat(Flat(blocks))) == Ink(text)
    ensures forall l :: l in Flat(blocks) ==> Width(l, Style(" ", measure)) <= max || |l| <= 1
  {
    NothingIsLost(text, max, measure, blocks);
    forall l | l in Flat(blocks) ensures Width(l, Style(" ", measure)) <= max || |l| <= 1 {
      AllFit(SplitLines(text), max, measure, blocks, l);
    }
  }

  lemma OneMoreBlock(wanted: seq<string>, k: nat, max: real, measure: char -> real,
                     blocks: seq<seq<string>>, block: seq<string>)
    requires k < |wanted| && AllWrapped(wanted[..k], max, measure, blocks) && Wrapped(wanted[k], max, measure, block)
    ensures AllWrapped(wanted[..k + 1], max, measure, blocks + [block])
  {
    var more, all := wanted[..k + 1], blocks + [block];
    forall i | 0 <= i < |all| ensures Wrapped(more[i], max, measure, all[i]) {
      if i < k {
        assert more[i] == wanted[..k][i] && all[i] == blocks[i];
      }
    }
  }

  method WrapAll(wanted: seq<string>, max: real, measure: char -> real)
    returns (lines: seq<string>, ghost blocks: seq<seq<string>>)
    requires Measures(Style(" ", measure))
    ensures lines == Flat(blocks) && AllWrapped(wanted, max, measure, blocks)
  {
    lines, blocks := [], [];
    for k := 0 to |wanted|
      invariant lines == Flat(blocks) && AllWrapped(wanted[..k], max, measure, blocks)
    {
      var block := WrapLine(wanted[k], max, measure);
      OneMoreBlock(wanted, k, max, measure, blocks, block);
      FlatAdds(blocks, [block]);
      assert Flat([block]) == block;
      lines, blocks := lines + block, blocks + [block];
    }
    assert wanted[..|wanted|] == wanted;
  }

  /** A text of one line that fits is left on one line, and as it is if it has no white space. */
  lemma ShortTextIsKept(text: string, max: real, measure: char -> real, blocks: seq<seq<string>>)
    requires Measures(Style(" ", measure)) && AllWrapped(SplitLines(text), max, measure, blocks)
    ensures '\n' !in text && Width(Join(SplitWords(text), " "), Style(" ", measure)) <= max ==>
      Flat(blocks) == [Join(SplitWords(text), " ")]
    ensures NoSpace(text) && Width(text, Style(" ", measure)) <= max ==> Flat(blocks) == [text]
  {
    if NoSpace(text) {
      SplitAtSpaces(text, ' ', "");
      assert IsSpace('\n');
    }
    if '\n' !in text && Width(Join(SplitWords(text), " "), Style(" ", measure)) <= max {
      SplitAtNewlines(text, "");
      ShortLineIsKept(text, max, measure, blocks[0]);
      assert blocks == [blocks[0]];
      assert Flat([blocks[0]]) == blocks[0];
    }
  }

  /** Wraps a text: nothing is lost, every line fits, each block has the fewest lines and is balanced. */
  method WrapText(text: string, max: real, scale: real) returns (lines: seq<string>)
    requires scale > 0.0
    ensures exists blocks ::
      lines == Flat(blocks) && AllWrapped(SplitLines(text), max, Scaled(CharWidth, scale), blocks)
    ensures Ink(Flat(lines)) == Ink(text)
    ensures forall l :: l in lines ==> Width(l, Style(" ", Scaled(CharWidth, scale))) <= max || |l| <= 1
    ensures NoSpace(text) && Width(text, Style(" ", Scaled(CharWidth, scale))) <= max ==> lines == [text]
    ensures '\n' !in text && Width(Join(SplitWords(text), " "), Style(" ", Scaled(CharWidth, scale))) <= max ==>
      lines == [Join(SplitWords(text), " ")]
  {
    var measure := Scaled(CharWidth, scale);
    ScaleMeasures(" ", scale);
    ghost var blocks;
    lines, blocks := WrapAll(SplitLines(text), max, measure);
    AllWrappedMeans(text, max, measure, blocks);
    ShortTextIsKept(text, max, measure, blocks);
  }
}
