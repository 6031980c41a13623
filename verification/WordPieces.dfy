/**
 * Words of a diagram's texts (server/src/diagram.ts, textWidth and wrapText): a line is split at white
 * space, and words too long for a line are cut in pieces.
 */
module WordPieces {
  import opened LineBreaks

  /* ── Widths ────────────────────────────────────────────────────────── */

  /** Estimated width of a character at 13 px. */
  function CharWidth(c: char): real {
    if 'A' <= c <= 'Z' || '0' <= c <= '9' || c in "@#%&MWmw" then 8.4
    else if c in "il.,:;'|! " then 4.0
    else 7.0
  }

  /** A measure at another scale. */
  function Scaled(measure: char -> real, scale: real): char -> real {
    c => measure(c) * scale
  }

  lemma Distributes(a: real, b: real, scale: real)
    ensures (a + b) * scale == a * scale + b * scale
  {
  }

  /** Scaling characters scales the text. */
  lemma {:induction false} WidthScales(t: string, glue: string, measure: char -> real, scale: real)
    ensures Width(t, Style(glue, Scaled(measure, scale))) == Width(t, Style(glue, measure)) * scale
  {
    if t != "" {
      WidthScales(t[1..], glue, measure, scale);
      Distributes(measure(t[0]), Width(t[1..], Style(glue, measure)), scale);
    }
  }

  lemma ScaleMeasures(glue: string, scale: real)
    requires scale > 0.0
    ensures Measures(Style(glue, Scaled(CharWidth, scale)))
  {
    forall c ensures CharWidth(c) * scale >= 0.0 { }
  }

  /* ── Words ─────────────────────────────────────────────────────────── */

  /** White space of ECMAScript regular expressions. */
  predicate IsSpace(c: char) {
    || '\t' <= c <= '\r' || c == ' ' || c == '\U{A0}' || c == '\U{1680}' || '\U{2000}' <= c <= '\U{200A}'
    || c == '\U{2028}' || c == '\U{2029}' || c == '\U{202F}' || c == '\U{205F}' || c == '\U{3000}' || c == '\U{FEFF}'
  }

  /** Characters a long word may be cut after. */
  predicate IsSeparator(c: char) {
    c in "/.-_?&="
  }

  /** The text without its white space. */
  function Ink(t: string): string {
    if t == "" then "" else if IsSpace(t[0]) then Ink(t[1..]) else [t[0]] + Ink(t[1..])
  }

  function WordEnd(t: string): (n: nat)
    ensures n <= |t| && (t != "" && !IsSpace(t[0]) ==> n > 0)
  {
    if t == "" || IsSpace(t[0]) then 0 else 1 + WordEnd(t[1..])
  }

  /** Words of a line: the runs without white space. */
  function SplitWords(t: string): seq<string>
    decreases |t|
  {
    if t == "" then []
    else if IsSpace(t[0]) then SplitWords(t[1..])
    else [t[..WordEnd(t)]] + SplitWords(t[WordEnd(t)..])
  }

  function LineEnd(t: string): (n: nat)
    ensures n <= |t| && (n < |t| ==> t[n] == '\n')
  {
    if t == "" || t[0] == '\n' then 0 else 1 + LineEnd(t[1..])
  }

  /** Lines wanted by the author: at least one, maybe blank. */
  function SplitLines(t: string): (r: seq<string>)
    ensures r != []
    decreases |t|
  {
    var n := LineEnd(t);
    if n == |t| then [t] else [t[..n]] + SplitLines(t[n + 1..])
  }

  function PartEnd(word: string): (n: nat)
    requires word != ""
    ensures 0 < n <= |word|
  {
    if |word| == 1 || IsSeparator(word[0]) then 1 else 1 + PartEnd(word[1..])
  }

  /** A word split after each separator. */
  function Parts(word: string): seq<string>
    decreases |word|
  {
    if word == "" then [] else [word[..PartEnd(word)]] + Parts(word[PartEnd(word)..])
  }

  function Chars(part: string): (r: seq<string>)
    ensures |r| == |part| && forall i :: 0 <= i < |r| ==> r[i] == [part[i]]
  {
    seq(|part|, i requires 0 <= i < |part| => [part[i]])
  }

  /** What is never cut: a part that fits, or the characters of one that does not. */
  function PartAtoms(part: string, max: real, style: Style): seq<string> {
    if Width(part, style) > max then Chars(part) else [part]
  }

  function Atoms(parts: seq<string>, max: real, style: Style): seq<string> {
    if parts == [] then [] else PartAtoms(parts[0], max, style) + Atoms(parts[1..], max, style)
  }

  /** Pieces of a word: its atoms, as few pieces as possible (FillHasFewestLines). */
  function Pieces(word: string, max: real, charWidth: char -> real): seq<string> {
    var style := Style("", charWidth);
    if Width(word, style) <= max then [word] else Joins(Fill(Atoms(Parts(word), max, style), max, style), "")
  }

  function PiecesOfAll(words: seq<string>, max: real, charWidth: char -> real): seq<string> {
    if words == [] then [] else Pieces(words[0], max, charWidth) + PiecesOfAll(words[1..], max, charWidth)
  }

  /* ── Nothing is lost ───────────────────────────────────────────────── */

  lemma Associates<T>(a: seq<T>, b: seq<T>, c: seq<T>)
    ensures a + (b + c) == a + b + c
  {
  }

  lemma {:induction false} FlatAdds<T>(a: seq<seq<T>>, b: seq<seq<T>>)
    ensures Flat(a + b) == Flat(a) + Flat(b)
  {
    if a == [] {
      assert a + b == b;
    } else {
      FlatAdds(a[1..], b);
      assert (a + b)[0] == a[0] && (a + b)[1..] == a[1..] + b;
      Associates(a[0], Flat(a[1..]), Flat(b));
    }
  }

  lemma {:induction false} InkAdds(a: string, b: string)
    ensures Ink(a + b) == Ink(a) + Ink(b)
  {
    if a == "" {
      assert a + b == b;
    } else {
      InkAdds(a[1..], b);
      assert (a + b)[0] == a[0] && (a + b)[1..] == a[1..] + b;
      Associates([a[0]], Ink(a[1..]), Ink(b));
    }
  }

  predicate NoSpace(t: string) {
    forall c :: c in t ==> !IsSpace(c)
  }

  lemma {:induction false} InkOfNoSpace(t: string)
    requires NoSpace(t)
    ensures Ink(t) == t
  {
    if t != "" {
      assert forall c :: c in t[1..] ==> c in t;
      InkOfNoSpace(t[1..]);
    }
  }

  lemma {:induction false} WordHasNoSpace(t: string)
    ensures NoSpace(t[..WordEnd(t)])
  {
    if t != "" && !IsSpace(t[0]) {
      WordHasNoSpace(t[1..]);
      assert t[..WordEnd(t)] == [t[0]] + t[1..][..WordEnd(t[1..])];
    }
  }

  /** The words of a line are its ink, in order, and hold no white space. */
  lemma {:induction false} WordsAreInk(t: string)
    ensures Flat(SplitWords(t)) == Ink(t)
    ensures forall w :: w in SplitWords(t) ==> w != "" && NoSpace(w)
    decreases |t|
  {
    if t != "" {
      if IsSpace(t[0]) {
        WordsAreInk(t[1..]);
      } else {
        var n := WordEnd(t);
        WordHasNoSpace(t);
        InkOfNoSpace(t[..n]);
        WordsAreInk(t[n..]);
        InkAdds(t[..n], t[n..]);
        assert t[..n] + t[n..] == t;
      }
    }
  }

  /* ── Where words, lines and parts end ──────────────────────────────── */

  lemma {:induction false} WordEndsAtSpace(word: string, rest: string)
    requires NoSpace(word) && (rest == "" || IsSpace(rest[0]))
    ensures WordEnd(word + rest) == |word|
  {
    if word == "" {
      assert word + rest == rest;
    } else {
      assert (word + rest)[0] == word[0] && (word + rest)[1..] == word[1..] + rest && word[0] in word;
      assert forall c :: c in word[1..] ==> c in word;
      WordEndsAtSpace(word[1..], rest);
    }
  }

  /** White space splits words, and nothing else does. */
  lemma SplitAtSpaces(word: string, space: char, rest: string)
    requires NoSpace(word) && IsSpace(space)
    ensures SplitWords(word) == if word == "" then [] else [word]
    ensures SplitWords(word + [space] + rest) == (if word == "" then [] else [word]) + SplitWords(rest)
  {
    var t := word + [space] + rest;
    assert SplitWords([space] + rest) == SplitWords(rest) by {
      assert ([space] + rest)[1..] == rest;
    }
    if word == "" {
      assert t == [space] + rest;
    } else {
      assert word[0] in word && t[0] == word[0];
      assert t == word + ([space] + rest);
      WordEndsAtSpace(word, [space] + rest);
      WordEndsAtSpace(word, "");
      assert word + "" == word;
      assert t[..|word|] == word && t[|word|..] == [space] + rest && word[|word|..] == "";
    }
  }

  lemma {:induction false} LineEndsAtNewline(line: string, rest: string)
    requires '\n' !in line && (rest == "" || rest[0] == '\n')
    ensures LineEnd(line + rest) == |line|
  {
    if line == "" {
      assert line + rest == rest;
    } else {
      assert (line + rest)[0] == line[0] && (line + rest)[1..] == line[1..] + rest;
      LineEndsAtNewline(line[1..], rest);
    }
  }

  /** Newlines split lines, and nothing else does. */
  lemma SplitAtNewlines(line: string, rest: string)
    requires '\n' !in line
    ensures SplitLines(line) == [line]
    ensures SplitLines(line + "\n" + rest) == [line] + SplitLines(rest)
  {
    var t := line + "\n" + rest;
    assert t == line + ("\n" + rest);
    LineEndsAtNewline(line, "\n" + rest);
    LineEndsAtNewline(line, "");
    assert line + "" == line;
    assert t[..|line|] == line && t[|line| + 1..] == rest;
  }

  lemma {:induction false} PartEndsAtSeparator(part: string, separator: char, rest: string)
    requires (forall c :: c in part ==> !IsSeparator(c)) && IsSeparator(separator)
    ensures PartEnd(part + [separator] + rest) == |part| + 1
  {
    var t := part + [separator] + rest;
    if part != "" {
      assert t[0] == part[0] && part[0] in part && t[1..] == part[1..] + [separator] + rest;
      assert forall c :: c in part[1..] ==> c in part;
      PartEndsAtSeparator(part[1..], separator, rest);
    }
  }

  lemma {:induction false} LastPartEnds(part: string)
    requires part != "" && forall c :: c in part ==> !IsSeparator(c)
    ensures PartEnd(part) == |part|
  {
    if |part| > 1 {
      assert part[0] in part && forall c :: c in part[1..] ==> c in part;
      LastPartEnds(part[1..]);
    }
  }

  /** A long word may be cut after each separator, and nowhere else before it is cut by characters. */
  lemma SplitAfterSeparators(part: string, separator: char, rest: string)
    requires (forall c :: c in part ==> !IsSeparator(c)) && IsSeparator(separator)
    ensures Parts(part) == if part == "" then [] else [part]
    ensures Parts(part + [separator] + rest) == [part + [separator]] + Parts(rest)
  {
    var t := part + [separator] + rest;
    PartEndsAtSeparator(part, separator, rest);
    assert t[..|part| + 1] == part + [separator] && t[|part| + 1..] == rest;
    if part != "" {
      LastPartEnds(part);
      assert part[..|part|] == part && part[|part|..] == "";
    }
  }

  lemma {:induction false} PartsMakeTheWord(word: string)
    ensures Flat(Parts(word)) == word && NoneEmpty(Parts(word))
    decreases |word|
  {
    if word != "" {
      PartsMakeTheWord(word[PartEnd(word)..]);
    }
  }

  lemma {:induction false} CharsMakeThePart(part: string)
    ensures Flat(Chars(part)) == part
  {
    if part != "" {
      CharsMakeThePart(part[1..]);
      assert Chars(part)[1..] == Chars(part[1..]);
    }
  }

  lemma {:induction false} AtomsMakeTheWord(parts: seq<string>, max: real, style: Style)
    ensures Flat(Atoms(parts, max, style)) == Flat(parts)
  {
    if parts != [] {
      AtomsMakeTheWord(parts[1..], max, style);
      CharsMakeThePart(parts[0]);
      FlatAdds(PartAtoms(parts[0], max, style), Atoms(parts[1..], max, style));
    }
  }

  /** An atom fits, or is one character. */
  lemma {:induction false} AtomsAreSmall(parts: seq<string>, max: real, style: Style, a: string)
    requires NoneEmpty(parts) && a in Atoms(parts, max, style)
    ensures a != "" && (Width(a, style) <= max || |a| == 1)
  {
    assert parts[0] in parts && forall p :: p in parts[1..] ==> p in parts;
    if a in Atoms(parts[1..], max, style) {
      AtomsAreSmall(parts[1..], max, style, a);
    }
  }

  lemma {:induction false} BareJoin(parts: seq<string>)
    ensures Join(parts, "") == Flat(parts)
  {
    if |parts| > 1 {
      var n := |parts| - 1;
      BareJoin(parts[..n]);
      FlatAdds(parts[..n], parts[n..]);
      assert parts[..n] + parts[n..] == parts && parts[n..] == [parts[n]];
    }
  }

  lemma {:induction false} BareJoins(lines: seq<seq<string>>)
    ensures Flat(Joins(lines, "")) == Flat(Flat(lines))
  {
    if lines != [] {
      BareJoin(lines[0]);
      BareJoins(lines[1..]);
      assert Joins(lines, "")[1..] == Joins(lines[1..], "");
      FlatAdds(lines[0], Flat(lines[1..]));
    }
  }

  /** Pieces put end to end are the word; each fits, or is one character wider than the limit. */
  lemma PiecesMakeTheWord(word: string, max: real, charWidth: char -> real)
    requires word != ""
    ensures Flat(Pieces(word, max, charWidth)) == word && NoneEmpty(Pieces(word, max, charWidth))
    ensures forall p :: p in Pieces(word, max, charWidth) ==> Width(p, Style("", charWidth)) <= max || |p| == 1
  {
    var style := Style("", charWidth);
    if Width(word, style) > max {
      var atoms := Atoms(Parts(word), max, style);
      PartsMakeTheWord(word);
      AtomsMakeTheWord(Parts(word), max, style);
      forall a | a in atoms ensures a != "" && (Width(a, style) <= max || |a| == 1) {
        AtomsAreSmall(Parts(word), max, style, a);
      }
      FillBreaks(atoms, max, style);
      LinesFromAtoms(Fill(atoms, max, style), atoms, max, style);
    }
  }

  lemma LinesFromAtoms(lines: seq<seq<string>>, atoms: seq<string>, max: real, style: Style)
    requires style.glue == "" && Breaks(lines, atoms, max, style) && NoneEmpty(atoms)
    requires forall a :: a in atoms ==> Width(a, style) <= max || |a| == 1
    ensures Flat(Joins(lines, "")) == Flat(atoms)
    ensures forall p :: p in Joins(lines, "") ==> p != "" && (Width(p, style) <= max || |p| == 1)
  {
    BareJoins(lines);
    forall p | p in Joins(lines, "") ensures p != "" && (Width(p, style) <= max || |p| == 1) {
      var i :| 0 <= i < |lines| && p == Join(lines[i], "");
      LineFromAtoms(lines, atoms, max, style, i);
    }
  }

  lemma LineFromAtoms(lines: seq<seq<string>>, atoms: seq<string>, max: real, style: Style, i: nat)
    requires style.glue == "" && i < |lines| && Breaks(lines, atoms, max, style) && NoneEmpty(atoms)
    requires forall a :: a in atoms ==> Width(a, style) <= max || |a| == 1
    ensures Join(lines[i], "") != "" && (Width(Join(lines[i], ""), style) <= max || |Join(lines[i], "")| == 1)
  {
    assert lines[i] in lines;
    FlatHolds(lines, i);
    var last := lines[i][|lines[i]| - 1];
    assert last in lines[i];
    assert last in atoms;
  }

  lemma {:induction false} FlatHolds<T>(lists: seq<seq<T>>, i: nat)
    requires i < |lists|
    ensures forall x :: x in lists[i] ==> x in Flat(lists)
  {
    if i > 0 {
      FlatHolds(lists[1..], i - 1);
    }
  }

  /** Where the i-th element of the w-th list comes in all of them together. */
  lemma {:induction false} FlatAt<T>(lists: seq<seq<T>>, w: nat, i: nat)
    requires w < |lists| && i < |lists[w]|
    ensures |Flat(lists[..w])| + i < |Flat(lists)| && Flat(lists)[|Flat(lists[..w])| + i] == lists[w][i]
  {
    if w == 0 {
      assert lists[..0] == [];
    } else {
      assert lists[..w][0] == lists[0] && lists[..w][1..] == lists[1..][..w - 1];
      FlatAt(lists[1..], w - 1, i);
    }
  }

  /** A word is cut in as few pieces as its atoms allow. */
  lemma PiecesAreFewest(word: string, max: real, charWidth: char -> real, other: seq<seq<string>>)
    requires word != "" && Measures(Style("", charWidth))
    requires Breaks(other, Atoms(Parts(word), max, Style("", charWidth)), max, Style("", charWidth))
    ensures |Pieces(word, max, charWidth)| <= |other|
  {
    var style := Style("", charWidth);
    AtomsOfWord(word, max, style);
    FillHasFewestLines(Atoms(Parts(word), max, style), max, style, other);
  }

  /**
   * Pieces that follow one another in a word would not fit on one line with a space between them: no
   * line shows a word with a space inside (NeighboursFit).
   */
  lemma PiecesStayApart(word: string, max: real, charWidth: char -> real, i: nat)
    requires word != "" && Measures(Style("", charWidth)) && i + 1 < |Pieces(word, max, charWidth)|
    ensures Width(Pieces(word, max, charWidth)[i] + " " + Pieces(word, max, charWidth)[i + 1],
                  Style(" ", charWidth)) > max
  {
    var style := Style("", charWidth);
    var atoms := Atoms(Parts(word), max, style);
    var lines := Fill(atoms, max, style);
    LinesAreFull(atoms, max, style, i);
    var line, after := lines[i], lines[i + 1];
    JoinAdds(line, after[0], "");
    PartIsNarrower(after, 0, style);
    SpaceIsNoRoom(Join(line, ""), Join(after, ""), after[0], max, charWidth);
  }

  lemma {:induction false} PartEndsWithSeparator(word: string)
    requires word != ""
    ensures PartEnd(word) < |word| ==> IsSeparator(word[PartEnd(word) - 1])
  {
    if |word| > 1 && !IsSeparator(word[0]) { PartEndsWithSeparator(word[1..]); }
  }

  lemma {:induction false} PartsEndWithSeparators(word: string, k: nat)
    requires k + 1 < |Parts(word)|
    ensures Parts(word)[k] != "" && IsSeparator(Parts(word)[k][|Parts(word)[k]| - 1])
    decreases |word|
  {
    PartEndsWithSeparator(word);
    if k > 0 { PartsEndWithSeparators(word[PartEnd(word)..], k - 1); }
  }

  lemma {:induction false} FittingPartsStayWhole(parts: seq<string>, max: real, style: Style)
    requires forall p :: p in parts ==> Width(p, style) <= max
    ensures Atoms(parts, max, style) == parts
  {
    if parts != [] {
      assert parts[0] in parts && forall p :: p in parts[1..] ==> p in parts;
      FittingPartsStayWhole(parts[1..], max, style);
    }
  }

  lemma LastOfJoin(line: seq<string>)
    requires line != [] && line[|line| - 1] != ""
    ensures var t, last := Join(line, ""), line[|line| - 1]; t != "" && t[|t| - 1] == last[|last| - 1]
  {}

  /** The last element of a list that is not the last list stands before another element of all of them. */
  lemma LastOfList<T>(lists: seq<seq<T>>, i: nat) returns (k: nat)
    requires i + 1 < |lists| && lists[i] != [] && lists[i + 1] != []
    ensures k + 1 < |Flat(lists)| && Flat(lists)[k] == lists[i][|lists[i]| - 1]
  {
    k := |Flat(lists[..i])| + |lists[i]| - 1;
    FlatAt(lists, i, |lists[i]| - 1);
    FlatAt(lists, i + 1, 0);
    assert lists[..i + 1] == lists[..i] + [lists[i]] && Flat([lists[i]]) == lists[i];
    FlatAdds(lists[..i], [lists[i]]);
  }

  lemma LineEndsWithSeparator(word: string, lines: seq<seq<string>>, i: nat)
    requires Flat(lines) == Parts(word) && i + 1 < |lines| && lines[i] != [] && lines[i + 1] != []
    ensures var piece := Join(lines[i], ""); piece != "" && IsSeparator(piece[|piece| - 1])
  {
    var k := LastOfList(lines, i);
    PartsEndWithSeparators(word, k);
    LastOfJoin(lines[i]);
  }

  /** The lines of parts whose joins are the pieces of a word. */
  lemma PiecesAreLines(word: string, max: real, charWidth: char -> real) returns (lines: seq<seq<string>>)
    requires forall p :: p in Parts(word) ==> Width(p, Style("", charWidth)) <= max
    requires Width(word, Style("", charWidth)) > max
    ensures Pieces(word, max, charWidth) == Joins(lines, "") && Flat(lines) == Parts(word)
    ensures forall l :: l in lines ==> l != []
  {
    var style := Style("", charWidth);
    FittingPartsStayWhole(Parts(word), max, style);
    lines := Fill(Parts(word), max, style);
    FillBreaks(Parts(word), max, style);
  }

  /** A word whose parts all fit is cut after separators only. */
  lemma CutsFollowSeparators(word: string, max: real, charWidth: char -> real, pieces: seq<string>, i: nat)
    requires forall p :: p in Parts(word) ==> Width(p, Style("", charWidth)) <= max
    requires pieces == Pieces(word, max, charWidth) && i + 1 < |pieces|
    ensures pieces[i] != "" && IsSeparator(pieces[i][|pieces[i]| - 1])
  {
    var lines := PiecesAreLines(word, max, charWidth);
    assert lines[i] in lines && lines[i + 1] in lines;
    LineEndsWithSeparator(word, lines, i);
  }

  lemma SpaceIsNoRoom(a: string, b: string, first: string, max: real, charWidth: char -> real)
    requires Measures(Style("", charWidth))
    requires Width(a + "" + first, Style("", charWidth)) > max
    requires Width(first, Style("", charWidth)) <= Width(b, Style("", charWidth))
    ensures Width(a + " " + b, Style(" ", charWidth)) > max
  {
    var style := Style("", charWidth);
    assert a + "" == a;
    WidthOfSum(a, first, style);
    WidthOfSum(a + " ", b, style);
    WidthOfSum(a, " ", style);
    WidthIgnoresGlue(a + " " + b, "", " ", charWidth);
  }

  lemma {:induction false} WidthIgnoresGlue(t: string, glue: string, other: string, charWidth: char -> real)
    ensures Width(t, Style(glue, charWidth)) == Width(t, Style(other, charWidth))
  {
    if t != "" {
      WidthIgnoresGlue(t[1..], glue, other, charWidth);
    }
  }

  /* ── Cutting words ─────────────────────────────────────────────────── */

  /** One turn of the loop of CutWord: a part that does not fit goes character by character. */
  method PlacePart(part: string, max: real, style: Style, before: seq<string>, piece: string, ghost rest: seq<string>)
    returns (out: seq<string>, cur: string)
    requires part != "" && style.glue == ""
    ensures out + FillRest(rest, max, style, cur)
      == before + FillRest(PartAtoms(part, max, style) + rest, max, style, piece)
    ensures cur != ""
  {
    out, cur := before, piece;
    if Width(part, style) > max {
      assert Chars(part)[0..] == Chars(part);
      for c := 0 to |part|
        invariant out + FillRest(Chars(part)[c..] + rest, max, style, cur)
          == before + FillRest(Chars(part) + rest, max, style, piece)
        invariant c > 0 ==> cur != ""
      {
        var ch := [part[c]];
        assert Chars(part)[c..] + rest == [ch] + (Chars(part)[c + 1..] + rest);
        FillStep(out, cur, ch, Chars(part)[c + 1..] + rest, max, style);
        assert cur + style.glue + ch == cur + ch;
        if cur != "" && Width(cur + ch, style) > max {
          out, cur := out + [cur], "";
        }
        assert cur == "" ==> cur + ch == ch;
        cur := cur + ch;
      }
      assert Chars(part)[|part|..] + rest == rest;
    } else {
      FillStep(out, cur, part, rest, max, style);
      assert cur + style.glue + part == cur + part;
      if cur != "" && Width(cur + part, style) > max {
        out, cur := out + [cur], part;
      } else {
        assert cur == "" ==> cur + part == part;
        cur := cur + part;
      }
    }
  }

  /** The pieces of a word: parts are added to the current piece while they fit. */
  method CutWord(word: string, max: real, charWidth: char -> real) returns (out: seq<string>)
    requires word != ""
    ensures out == Pieces(word, max, charWidth)
  {
    var style := Style("", charWidth);
    if Width(word, style) <= max {
      return [word];
    }
    out := [];
    var cur := "";
    var parts := Parts(word);
    AtomsOfWord(word, max, style);
    assert parts[0..] == parts;
    for k := 0 to |parts|
      invariant cur == "" ==> k == 0
      invariant out + FillRest(Atoms(parts[k..], max, style), max, style, cur)
        == FillRest(Atoms(parts, max, style), max, style, "")
    {
      assert parts[k] in parts && parts[k..][1..] == parts[k + 1..];
      out, cur := PlacePart(parts[k], max, style, out, cur, Atoms(parts[k + 1..], max, style));
    }
    FillRestIsLines(Atoms(parts, max, style), max, style);
    if cur != "" {
      out := out + [cur];
    }
  }

  lemma AtomsOfWord(word: string, max: real, style: Style)
    requires word != ""
    ensures var atoms := Atoms(Parts(word), max, style); atoms != [] && NoneEmpty(atoms)
    ensures Parts(word) != [] && NoneEmpty(Parts(word))
  {
    PartsMakeTheWord(word);
    AtomsMakeTheWord(Parts(word), max, style);
    forall a | a in Atoms(Parts(word), max, style) ensures a != "" { AtomsAreSmall(Parts(word), max, style, a); }
  }
}
