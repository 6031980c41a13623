/**
 * Filling lines (server/src/diagram.ts, wrapText): the widths of texts, and the rule that puts each part
 * on the current line if it fits there. Parts are words set apart by a space, or bits of one long word.
 */
module LineBreaks {
  /** How parts are put side by side: what stands between two, and the width of each character. */
  datatype Style = Style(glue: string, charWidth: char -> real)

  ghost predicate Measures(style: Style) {
    forall c :: style.charWidth(c) >= 0.0
  }

  function Width(t: string, style: Style): real {
    if t == "" then 0.0 else style.charWidth(t[0]) + Width(t[1..], style)
  }

  lemma {:induction false} WidthNotNegative(t: string, style: Style)
    requires Measures(style)
    ensures Width(t, style) >= 0.0
  {
    if t != "" {
      WidthNotNegative(t[1..], style);
    }
  }

  /** The width of a text is that of its characters, one after the other. */
  lemma {:induction false} WidthAdds(a: string, b: string, style: Style)
    ensures Width(a + b, style) == Width(a, style) + Width(b, style)
    ensures Width("", style) == 0.0 && forall c :: Width([c], style) == style.charWidth(c)
  {
    if a == "" {
      assert a + b == b;
    } else {
      WidthAdds(a[1..], b, style);
      assert (a + b)[1..] == a[1..] + b;
    }
  }

  lemma WidthOfSum(a: string, b: string, style: Style)
    requires Measures(style)
    ensures Width(a + b, style) == Width(a, style) + Width(b, style)
    ensures Width(a, style) >= 0.0 && Width(b, style) >= 0.0
  {
    WidthAdds(a, b, style);
    WidthNotNegative(a, style);
    WidthNotNegative(b, style);
  }

  function Join(parts: seq<string>, glue: string): string {
    if |parts| == 0 then ""
    else if |parts| == 1 then parts[0]
    else Join(parts[..|parts| - 1], glue) + glue + parts[|parts| - 1]
  }

  function Joins(lines: seq<seq<string>>, glue: string): (r: seq<string>)
    ensures |r| == |lines| && forall i :: 0 <= i < |r| ==> r[i] == Join(lines[i], glue)
  {
    seq(|lines|, i requires 0 <= i < |lines| => Join(lines[i], glue))
  }

  function LineWidth(parts: seq<string>, style: Style): real {
    Width(Join(parts, style.glue), style)
  }

  function Flat<T>(lists: seq<seq<T>>): seq<T> {
    if lists == [] then [] else lists[0] + Flat(lists[1..])
  }

  /* ── Breaking parts into lines ─────────────────────────────────────── */

  /** A line holds parts that fit together, or one part alone. */
  predicate Fits(line: seq<string>, limit: real, style: Style) {
    |line| == 1 || (|line| > 1 && LineWidth(line, style) <= limit)
  }

  ghost predicate Breaks(lines: seq<seq<string>>, parts: seq<string>, limit: real, style: Style) {
    Flat(lines) == parts && forall l :: l in lines ==> Fits(l, limit, style)
  }

  /** Number of parts on the first line, `n` of them placed already. */
  function Taken(parts: seq<string>, limit: real, style: Style, n: nat): (r: nat)
    requires 0 < n <= |parts|
    ensures n <= r <= |parts|
    decreases |parts| - n
  {
    if n < |parts| && LineWidth(parts[..n + 1], style) <= limit then Taken(parts, limit, style, n + 1) else n
  }

  function Fill(parts: seq<string>, limit: real, style: Style): seq<seq<string>> {
    if parts == [] then [] else
      var n := Taken(parts, limit, style, 1);
      [parts[..n]] + Fill(parts[n..], limit, style)
  }

  lemma JoinAdds(line: seq<string>, part: string, glue: string)
    requires line != []
    ensures Join(line + [part], glue) == Join(line, glue) + glue + part
  {
    assert (line + [part])[..|line|] == line;
  }

  lemma LineGrows(parts: seq<string>, style: Style, i: nat, m: nat)
    requires i < m < |parts| && Measures(style)
    ensures LineWidth(parts[i..m + 1], style)
      == LineWidth(parts[i..m], style) + Width(style.glue, style) + Width(parts[m], style)
    ensures LineWidth(parts[i..m], style) <= LineWidth(parts[i..m + 1], style)
    ensures Width(parts[m], style) <= LineWidth(parts[i..m + 1], style)
  {
    assert parts[i..m + 1] == parts[i..m] + [parts[m]];
    JoinAdds(parts[i..m], parts[m], style.glue);
    WidthOfSum(Join(parts[i..m], style.glue), style.glue, style);
    WidthOfSum(Join(parts[i..m], style.glue) + style.glue, parts[m], style);
  }

  lemma OnePart(parts: seq<string>, style: Style, j: nat)
    requires j < |parts|
    ensures LineWidth(parts[j..j + 1], style) == Width(parts[j], style)
  {
    assert parts[j..j + 1] == [parts[j]];
  }

  /** A longer line, by its start or by its end, is at least as wide. */
  lemma {:induction false} WiderFromTheLeft(parts: seq<string>, style: Style, i: nat, j: nat, m: nat)
    requires i <= j <= m < |parts| && Measures(style)
    ensures LineWidth(parts[j..m + 1], style) <= LineWidth(parts[i..m + 1], style)
  {
    if i < j == m {
      OnePart(parts, style, j);
      LineGrows(parts, style, i, m);
    } else if i < j {
      WiderFromTheLeft(parts, style, i, j, m - 1);
      LineGrows(parts, style, i, m);
      LineGrows(parts, style, j, m);
    }
  }

  lemma {:induction false} WiderToTheRight(parts: seq<string>, style: Style, n: nat, m: nat)
    requires 0 < n <= m <= |parts| && Measures(style)
    ensures LineWidth(parts[..n], style) <= LineWidth(parts[..m], style)
    decreases m - n
  {
    if n < m {
      LineGrows(parts, style, 0, n);
      assert parts[0..n] == parts[..n] && parts[0..n + 1] == parts[..n + 1];
      WiderToTheRight(parts, style, n + 1, m);
    }
  }

  lemma PartIsNarrower(line: seq<string>, k: nat, style: Style)
    requires k < |line| && Measures(style)
    ensures Width(line[k], style) <= LineWidth(line, style)
  {
    OnePart(line, style, k);
    WiderFromTheLeft(line, style, 0, k, k);
    assert line[0..k + 1] == line[..k + 1] && line[..|line|] == line;
    WiderToTheRight(line, style, k + 1, |line|);
  }

  /** The first line takes every start that fits. */
  lemma {:induction false} TakenReaches(parts: seq<string>, limit: real, style: Style, n: nat, m: nat)
    requires 0 < n <= m <= |parts| && Measures(style) && Fits(parts[..m], limit, style)
    ensures Taken(parts, limit, style, n) >= m
    decreases m - n
  {
    if n < m {
      WiderToTheRight(parts, style, n + 1, m);
      TakenReaches(parts, limit, style, n + 1, m);
    }
  }

  lemma {:induction false} TakenFits(parts: seq<string>, limit: real, style: Style, n: nat)
    requires 0 < n <= |parts| && Fits(parts[..n], limit, style)
    ensures Fits(parts[..Taken(parts, limit, style, n)], limit, style)
    decreases |parts| - n
  {
    if n < |parts| && LineWidth(parts[..n + 1], style) <= limit {
      TakenFits(parts, limit, style, n + 1);
    }
  }

  lemma {:induction false} FillBreaks(parts: seq<string>, limit: real, style: Style)
    ensures Breaks(Fill(parts, limit, style), parts, limit, style)
  {
    if parts != [] {
      var n := Taken(parts, limit, style, 1);
      TakenFits(parts, limit, style, 1);
      FillBreaks(parts[n..], limit, style);
      assert parts == parts[..n] + parts[n..];
    }
  }

  /** If parts `i` to `m` fit on a line, a line started at `j`, between them, goes to `m` at least. */
  lemma LineReaches(parts: seq<string>, limit: real, style: Style, i: nat, j: nat, m: nat)
    requires i <= j < m <= |parts| && Measures(style) && Fits(parts[i..m], limit, style)
    ensures Taken(parts[j..], limit, style, 1) >= m - j
  {
    WiderFromTheLeft(parts, style, i, j, m - 1);
    var tail := parts[j..];
    assert tail[..m - j] == parts[j..m];
    TakenReaches(tail, limit, style, 1, m - j);
  }

  lemma AfterFirstLine(lines: seq<seq<string>>, parts: seq<string>, limit: real, style: Style, i: nat)
    requires i < |parts| && Breaks(lines, parts[i..], limit, style)
    ensures lines != [] && i < i + |lines[0]| <= |parts|
    ensures Fits(parts[i..i + |lines[0]|], limit, style) && Breaks(lines[1..], parts[i + |lines[0]|..], limit, style)
  {
    var line, m := lines[0], i + |lines[0]|;
    assert line in lines && parts[i..] == line + Flat(lines[1..]);
    assert parts[i..m] == line && parts[m..] == Flat(lines[1..]);
  }

  /** So the line after it starts at `next`, `m` or later. */
  lemma NextStart(parts: seq<string>, limit: real, style: Style, i: nat, j: nat, m: nat) returns (next: nat)
    requires i <= j < m <= |parts| && Measures(style) && Fits(parts[i..m], limit, style)
    ensures m <= next <= |parts|
    ensures |Fill(parts[j..], limit, style)| == 1 + |Fill(parts[next..], limit, style)|
  {
    LineReaches(parts, limit, style, i, j, m);
    next := j + Taken(parts[j..], limit, style, 1);
    assert parts[j..][next - j..] == parts[next..];
  }

  /** No breaking of a text has fewer lines, not even one of a longer text that ends the same way. */
  lemma {:induction false} FillIsFewest(parts: seq<string>, limit: real, style: Style, i: nat, j: nat,
                                        lines: seq<seq<string>>)
    requires i <= j <= |parts| && Measures(style) && Breaks(lines, parts[i..], limit, style)
    ensures |Fill(parts[j..], limit, style)| <= |lines|
    decreases |lines|
  {
    if j < |parts| {
      AfterFirstLine(lines, parts, limit, style, i);
      var m := i + |lines[0]|;
      if m <= j {
        FillIsFewest(parts, limit, style, m, j, lines[1..]);
      } else {
        var next := NextStart(parts, limit, style, i, j, m);
        FillIsFewest(parts, limit, style, m, next, lines[1..]);
      }
    }
  }

  lemma FillHasFewestLines(parts: seq<string>, limit: real, style: Style, lines: seq<seq<string>>)
    requires Measures(style) && Breaks(lines, parts, limit, style)
    ensures |Fill(parts, limit, style)| <= |lines|
  {
    assert parts[0..] == parts;
    FillIsFewest(parts, limit, style, 0, 0, lines);
  }

  /** Parts side by side on a line fit together without the others. */
  lemma NeighboursFit(line: seq<string>, limit: real, style: Style, k: nat)
    requires Measures(style) && k + 1 < |line| && Fits(line, limit, style)
    ensures Width(line[k] + style.glue + line[k + 1], style) <= limit
  {
    assert line[k..k + 2] == [line[k]] + [line[k + 1]];
    JoinAdds([line[k]], line[k + 1], style.glue);
    WiderFromTheLeft(line, style, 0, k, k + 1);
    assert line[0..k + 2] == line[..k + 2] && line[..|line|] == line;
    WiderToTheRight(line, style, k + 2, |line|);
  }

  lemma {:induction false} TakenIsFull(parts: seq<string>, limit: real, style: Style, n: nat)
    requires 0 < n <= |parts| && Taken(parts, limit, style, n) < |parts|
    ensures LineWidth(parts[..Taken(parts, limit, style, n) + 1], style) > limit
    decreases |parts| - n
  {
    if LineWidth(parts[..n + 1], style) <= limit {
      TakenIsFull(parts, limit, style, n + 1);
    }
  }

  /** The first part of a line did not fit on the line before. */
  lemma {:induction false} LinesAreFull(parts: seq<string>, limit: real, style: Style, i: nat)
    requires i + 1 < |Fill(parts, limit, style)|
    ensures var lines := Fill(parts, limit, style);
      lines[i] != [] && lines[i + 1] != [] && LineWidth(lines[i] + [lines[i + 1][0]], style) > limit
  {
    var n := Taken(parts, limit, style, 1);
    if i > 0 {
      LinesAreFull(parts[n..], limit, style, i - 1);
    } else {
      TakenIsFull(parts, limit, style, 1);
      assert parts[..n] + [parts[n]] == parts[..n + 1];
    }
  }

  /* ── The loop that fills lines ─────────────────────────────────────── */

  predicate NoneEmpty(parts: seq<string>) {
    forall p :: p in parts ==> p != ""
  }

  /** What the loop still yields when `cur` is the current line and `parts` are left. */
  function FillRest(parts: seq<string>, limit: real, style: Style, cur: string): seq<string> {
    if parts == [] then [cur]
    else if cur == "" then FillRest(parts[1..], limit, style, parts[0])
    else if Width(cur + style.glue + parts[0], style) > limit then [cur] + FillRest(parts[1..], limit, style, parts[0])
    else FillRest(parts[1..], limit, style, cur + style.glue + parts[0])
  }

  lemma {:induction false} JoinNotEmpty(line: seq<string>, glue: string)
    requires line != [] && NoneEmpty(line)
    ensures Join(line, glue) != ""
  {
    assert line[|line| - 1] in line;
  }

  /** Whether the next part goes on the line decides how many the line takes. */
  lemma TakenDecides(line: seq<string>, part: string, rest: seq<string>, limit: real, style: Style)
    requires line != []
    ensures var parts, wide := line + [part] + rest, Width(Join(line, style.glue) + style.glue + part, style) > limit;
      Taken(parts, limit, style, |line|) == if wide then |line| else Taken(parts, limit, style, |line| + 1)
  {
    JoinAdds(line, part, style.glue);
    assert (line + [part] + rest)[..|line| + 1] == line + [part];
  }

  lemma FillAfterLine(line: seq<string>, rest: seq<string>, limit: real, style: Style)
    requires line != [] && Taken(line + rest, limit, style, 1) == |line|
    ensures Joins(Fill(line + rest, limit, style), style.glue)
      == [Join(line, style.glue)] + Joins(Fill(rest, limit, style), style.glue)
  {
    assert (line + rest)[..|line|] == line && (line + rest)[|line|..] == rest;
  }

  /** The parts of `line` are on the current line: the loop yields what filling gives. */
  lemma {:induction false} FillRestIsFill(line: seq<string>, rest: seq<string>, limit: real, style: Style)
    requires line != [] && NoneEmpty(line) && NoneEmpty(rest)
    requires Taken(line + rest, limit, style, 1) == Taken(line + rest, limit, style, |line|)
    ensures FillRest(rest, limit, style, Join(line, style.glue)) == Joins(Fill(line + rest, limit, style), style.glue)
    decreases |rest|
  {
    JoinNotEmpty(line, style.glue);
    if rest == [] {
      FillAfterLine(line, [], limit, style);
    } else {
      var part, after := rest[0], rest[1..];
      assert line + rest == line + [part] + after && rest == [part] + after;
      assert part in rest && forall p :: p in after ==> p in rest;
      TakenDecides(line, part, after, limit, style);
      if Width(Join(line, style.glue) + style.glue + part, style) > limit {
        FillAfterLine(line, rest, limit, style);
        FillRestIsFill([part], after, limit, style);
      } else {
        JoinAdds(line, part, style.glue);
        FillRestIsFill(line + [part], after, limit, style);
      }
    }
  }

  /** Lines of a text: a text without parts gives one blank line. */
  function Lines(parts: seq<string>, limit: real, style: Style): seq<string> {
    if parts == [] then [""] else Joins(Fill(parts, limit, style), style.glue)
  }

  lemma FillRestIsLines(parts: seq<string>, limit: real, style: Style)
    requires NoneEmpty(parts)
    ensures FillRest(parts, limit, style, "") == Lines(parts, limit, style)
  {
    if parts != [] {
      assert [parts[0]] + parts[1..] == parts && parts[0] in parts && forall p :: p in parts[1..] ==> p in parts;
      FillRestIsFill([parts[0]], parts[1..], limit, style);
    }
  }

  /** The rule for the next part: on the current line if it fits there, on a new one otherwise. */
  lemma FillStep(lines: seq<string>, cur: string, part: string, rest: seq<string>, limit: real, style: Style)
    ensures var parts := [part] + rest;
      var longer := if cur != "" then cur + style.glue + part else part;
      if cur != "" && Width(longer, style) > limit
      then lines + FillRest(parts, limit, style, cur) == lines + [cur] + FillRest(rest, limit, style, part)
      else FillRest(parts, limit, style, cur) == FillRest(rest, limit, style, longer)
  {
    var parts := [part] + rest;
    assert parts[0] == part && parts[1..] == rest;
    assert lines + ([cur] + FillRest(rest, limit, style, part)) == lines + [cur] + FillRest(rest, limit, style, part);
  }

  method FillLines(parts: seq<string>, limit: real, style: Style) returns (lines: seq<string>)
    requires NoneEmpty(parts)
    ensures lines == Lines(parts, limit, style)
  {
    lines := [];
    var cur := "";
    assert parts[0..] == parts;
    for i := 0 to |parts|
      invariant lines + FillRest(parts[i..], limit, style, cur) == FillRest(parts, limit, style, "")
    {
      assert parts[i..] == [parts[i]] + parts[i + 1..];
      FillStep(lines, cur, parts[i], parts[i + 1..], limit, style);
      if cur != "" && Width(cur + style.glue + parts[i], style) > limit {
        lines, cur := lines + [cur], parts[i];
      } else {
        cur := if cur != "" then cur + style.glue + parts[i] else parts[i];
      }
    }
    lines := lines + [cur];
    FillRestIsLines(parts, limit, style);
  }
}
