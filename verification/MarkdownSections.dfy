// Headings and sections of release notes, found in text whose comments are masked in place.
module MarkdownSections {
  import opened Wrappers
  import opened Sequences
  import opened MarkdownComments

  // ---- lines ----

  /** The lines of the text, each with its line feed. */
  function Lines(text: string): (ls: seq<string>)
    ensures forall i :: 0 <= i < |ls| ==> ls[i] != ""
  {
    if text == "" then []
    else
      var ls := Lines(text[1..]);
      if text[0] == '\n' || ls == [] then [[text[0]]] + ls else [[text[0]] + ls[0]] + ls[1..]
  }

  function Join(ls: seq<string>): string { if ls == [] then "" else ls[0] + Join(ls[1..]) }

  lemma {:induction false} LinesAreTheText(text: string)
    ensures Join(Lines(text)) == text
  {
    if text != "" {
      LinesAreTheText(text[1..]);
      var ls := Lines(text[1..]);
      if text[0] != '\n' && ls != [] {
        assert Lines(text)[1..] == ls[1..];
        assert ([text[0]] + ls[0]) + Join(ls[1..]) == [text[0]] + Join(ls);
      }
    }
  }

  /** How many of this character the line begins with. */
  function Leading(s: string, c: char): (n: nat)
    ensures n <= |s|
  {
    if s == "" || s[0] != c then 0 else 1 + Leading(s[1..], c)
  }

  predicate IsSpace(c: char) { c == ' ' || c == '\t' || IsNewline(c) }

  datatype Fence = Fence(marker: char, length: nat)

  /** A fence line: its marker, and what stands after it. */
  function FenceOf(line: string): Option<(Fence, string)> {
    var content := line[Leading(line, ' ')..];
    if Leading(line, ' ') > 3 || content == "" || content[0] !in "`~" || Leading(content, content[0]) < 3 then None
    else Some((Fence(content[0], Leading(content, content[0])), content[Leading(content, content[0])..]))
  }

  predicate ClosesFence(candidate: Option<(Fence, string)>, fence: Fence) {
    candidate.Some? && candidate.value.0.marker == fence.marker && candidate.value.0.length >= fence.length
    && forall i :: 0 <= i < |candidate.value.1| ==> IsSpace(candidate.value.1[i])
  }

  predicate OpensFence(candidate: Option<(Fence, string)>) {
    candidate.Some? && (candidate.value.0.marker == '~' || '`' !in candidate.value.1)
  }

  predicate IsIndented(line: string) { "    " <= line || "\t" <= line }

  datatype Context = Context(fence: Option<Fence>, comment: bool)

  datatype Row = Row(visible: string, heading: bool, guidance: bool)

  /** What one line shows, and what the next one starts in. */
  ghost predicate RowOf(line: string, before: Context, row: Row, after: Context) {
    var candidate := FenceOf(line);
    if before.fence.Some? then
      var closes := ClosesFence(candidate, before.fence.value);
      row == Row(line, false, !closes) && after == Context(if closes then None else before.fence, before.comment)
    else if !before.comment && OpensFence(candidate) then
      row == Row(line, false, false) && after == Context(Some(candidate.value.0), before.comment)
    else if !before.comment && IsIndented(line) then
      row == Row(line, false, true) && after == before
    else
      Shows(line, before.comment, row.visible, after.comment) && row.heading && row.guidance && after.fence.None?
  }

  /** Lines read in turn, each in the context the one before it left. */
  ghost predicate Reads(ls: seq<string>, rows: seq<Row>, contexts: seq<Context>) {
    && |rows| == |ls| && |contexts| == |ls| + 1
    && forall i :: 0 <= i < |ls| ==> RowOf(ls[i], contexts[i], rows[i], contexts[i + 1])
  }

  ghost predicate AreRows(ls: seq<string>, rows: seq<Row>, contexts: seq<Context>) {
    Reads(ls, rows, contexts) && contexts[0] == Context(None, false)
  }

  ghost predicate RowsOf(text: string, rows: seq<Row>) { exists contexts :: AreRows(Lines(text), rows, contexts) }

  method ReleaseLines(text: string) returns (rows: seq<Row>)
    ensures RowsOf(text, rows)
  {
    var ls := Lines(text);
    var fence: Option<Fence>, comment := None, false;
    ghost var contexts := [Context(None, false)];
    rows := [];
    for i := 0 to |ls|
      invariant |rows| == i && |contexts| == i + 1
      invariant contexts[0] == Context(None, false) && contexts[i] == Context(fence, comment)
      invariant forall k :: 0 <= k < i ==> RowOf(ls[k], contexts[k], rows[k], contexts[k + 1])
    {
      var row;
      row, fence, comment := ReleaseLine(ls[i], fence, comment);
      rows, contexts := rows + [row], contexts + [Context(fence, comment)];
    }
    assert AreRows(ls, rows, contexts);
  }

  method ReleaseLine(line: string, fence: Option<Fence>, comment: bool)
    returns (row: Row, nextFence: Option<Fence>, nextComment: bool)
    ensures RowOf(line, Context(fence, comment), row, Context(nextFence, nextComment))
  {
    nextFence, nextComment := fence, comment;
    var candidate := FenceOf(line);
    if fence.Some? {
      var closes := ClosesFence(candidate, fence.value);
      row := Row(line, false, !closes);
      if closes {
        nextFence := None;
      }
    } else if !comment && OpensFence(candidate) {
      nextFence := Some(candidate.value.0);
      row := Row(line, false, false);
    } else if !comment && IsIndented(line) {
      row := Row(line, false, true);
    } else {
      var visible;
      visible, nextComment := CommentLine(line, comment);
      row := Row(visible, true, true);
    }
  }

  /** Character for character the line itself, or a blank; line ends always stay. */
  ghost predicate Veils(line: string, visible: string) {
    |visible| == |line|
    && forall k :: 0 <= k < |line| ==> visible[k] == line[k] || (visible[k] == ' ' && !IsNewline(line[k]))
  }

  lemma RowsVeil(ls: seq<string>, rows: seq<Row>, contexts: seq<Context>, i: nat)
    requires AreRows(ls, rows, contexts) && i < |ls|
    ensures Veils(ls[i], rows[i].visible)
  {
    assert RowOf(ls[i], contexts[i], rows[i], contexts[i + 1]);
  }

  function Visible(rows: seq<Row>): string { if rows == [] then "" else rows[0].visible + Visible(rows[1..]) }

  /** The masked text has every offset of the original. */
  lemma {:induction false} VisibleVeils(ls: seq<string>, rows: seq<Row>)
    requires |rows| == |ls| && forall i :: 0 <= i < |ls| ==> Veils(ls[i], rows[i].visible)
    ensures Veils(Join(ls), Visible(rows))
  {
    if ls != [] {
      VisibleVeils(ls[1..], rows[1..]);
      var a, b := ls[0], Join(ls[1..]);
      var va, vb := rows[0].visible, Visible(rows[1..]);
      assert Veils(a, va) && Veils(b, vb);
      forall k | 0 <= k < |a + b|
        ensures (va + vb)[k] == (a + b)[k] || ((va + vb)[k] == ' ' && !IsNewline((a + b)[k]))
      {
        if k < |a| {
          assert (va + vb)[k] == va[k] && (a + b)[k] == a[k];
        } else {
          assert (va + vb)[k] == vb[k - |a|] && (a + b)[k] == b[k - |a|];
        }
      }
    }
  }

  // ---- headings ----

  datatype Heading = Heading(level: nat, title: string, start: nat, end: nat)

  function TrimRight(s: string, drop: set<char>): string {
    if s != "" && s[|s| - 1] in drop then TrimRight(s[..|s| - 1], drop) else s
  }

  function TrimLeft(s: string, drop: set<char>): string {
    if s != "" && s[0] in drop then TrimLeft(s[1..], drop) else s
  }

  const SPACES: set<char> := {' ', '\t', '\r', '\n'}

  /** An ATX title without an optional closing sequence of hashes. */
  function TitleOf(content: string): string {
    var title := TrimRight(TrimLeft(content, SPACES), SPACES);
    var bare := TrimRight(title, {'#'});
    if bare == "" || bare[|bare| - 1] == ' ' || bare[|bare| - 1] == '\t' then TrimRight(bare, {' ', '\t'}) else title
  }

  lemma {:induction false} TrimRightCuts(s: string, drop: set<char>)
    ensures var n := |TrimRight(s, drop)|;
            && n <= |s| && TrimRight(s, drop) == s[..n] && (n > 0 ==> s[n - 1] !in drop)
            && forall k :: n <= k < |s| ==> s[k] in drop
  {
    if s != "" && s[|s| - 1] in drop {
      TrimRightCuts(s[..|s| - 1], drop);
    }
  }

  lemma {:induction false} TrimLeftCuts(s: string, drop: set<char>)
    ensures var n := |s| - |TrimLeft(s, drop)|;
            && 0 <= n <= |s| && TrimLeft(s, drop) == s[n..] && (n < |s| ==> s[n] !in drop)
            && forall k :: 0 <= k < n ==> s[k] in drop
  {
    if s != "" && s[0] in drop {
      TrimLeftCuts(s[1..], drop);
    }
  }

  ghost predicate IsTitleWithin(content: string, i: nat, j: nat) {
    && i <= j <= |content|
    && (forall k :: 0 <= k < i ==> content[k] in SPACES)
    && (forall k :: j <= k < |content| ==> content[k] in SPACES || content[k] == '#')
    && (i < j ==> content[i] !in SPACES && content[j - 1] != ' ' && content[j - 1] != '\t')
  }

  /** Cut on both sides, and then once or twice more on the right. */
  lemma TitleCuts(left: string)
    requires left == "" || left[0] !in SPACES
    ensures IsTitleWithin(left, 0, |TitleOf(left)|) && TitleOf(left) == left[..|TitleOf(left)|]
  {
    var title := TrimRight(left, SPACES);
    var bare := TrimRight(title, {'#'});
    TrimRightCuts(left, SPACES);
    TrimRightCuts(title, {'#'});
    TrimRightCuts(bare, {' ', '\t'});
    var r := TitleOf(left);
    assert TrimLeft(left, SPACES) == left;
    assert title == left[..|title|] && bare == left[..|bare|] && r == left[..|r|];
    forall k | |r| <= k < |left| ensures left[k] in SPACES || left[k] == '#' {
      if k < |bare| {
        assert bare[k] == left[k];
      } else if k < |title| {
        assert title[k] == left[k];
      }
    }
  }

  /** A title is one stretch of the heading's text: only white space is cut before it, and that and hashes after. */
  lemma TitleIsWithin(content: string)
    ensures exists i: nat, j: nat :: IsTitleWithin(content, i, j) && TitleOf(content) == content[i..j]
  {
    var left := TrimLeft(content, SPACES);
    TrimLeftCuts(content, SPACES);
    TitleCuts(left);
    var r := TitleOf(content);
    assert TrimLeft(left, SPACES) == left && r == TitleOf(left);
    var i: nat, j: nat := |content| - |left|, |content| - |left| + |r|;
    forall k | j <= k < |content| ensures content[k] in SPACES || content[k] == '#' {
      assert content[k] == left[k - i];
    }
    if i < j {
      assert content[i] == left[0] && content[j - 1] == left[|r| - 1];
    }
    assert IsTitleWithin(content, i, j) && r == content[i..j];
  }

  /** Without the white space at its ends. */
  ghost predicate IsStripped(content: string, i: nat, j: nat) {
    && i <= j <= |content|
    && (forall k :: 0 <= k < |content| && !(i <= k < j) ==> content[k] in {' ', '\t', '\r', '\n'})
    && (i < j ==> content[i] !in {' ', '\t', '\r', '\n'} && content[j - 1] !in {' ', '\t', '\r', '\n'})
  }

  /**
   * A title's text goes up to `e`, and its last hashes begin at `b`: they are cut, with the blanks before them,
   * when there is a blank or nothing before them.
   */
  ghost predicate IsCut(title: string, e: nat, b: nat) {
    && e <= |title| && b <= |title| && (forall k :: b <= k < |title| ==> title[k] == '#')
    && (0 < b ==> title[b - 1] != '#')
    && if b == 0 || title[b - 1] in {' ', '\t'} then
         && e <= b && (forall k :: e <= k < b ==> title[k] in {' ', '\t'}) && (0 < e ==> title[e - 1] !in {' ', '\t'})
       else e == |title|
  }

  lemma HashesAreCut(title: string) returns (e: nat, b: nat)
    ensures IsCut(title, e, b)
    ensures var bare := TrimRight(title, {'#'});
            (if bare == "" || bare[|bare| - 1] == ' ' || bare[|bare| - 1] == '\t' then TrimRight(bare, {' ', '\t'})
             else title) == title[..e]
  {
    var bare := TrimRight(title, {'#'});
    TrimRightCuts(title, {'#'});
    TrimRightCuts(bare, {' ', '\t'});
    b := |bare|;
    e := if bare == "" || bare[|bare| - 1] == ' ' || bare[|bare| - 1] == '\t' then |TrimRight(bare, {' ', '\t'})|
         else |title|;
  }

  lemma EndsAreStripped(content: string) returns (i: nat, j: nat)
    ensures IsStripped(content, i, j) && TrimRight(TrimLeft(content, SPACES), SPACES) == content[i..j]
  {
    var left := TrimLeft(content, SPACES);
    TrimLeftCuts(content, SPACES);
    TrimRightCuts(left, SPACES);
    i := |content| - |left|;
    j := i + |TrimRight(left, SPACES)|;
    forall k | i <= k < |content| ensures content[k] == left[k - i] {}
  }

  /** Every heading's title is cut so. */
  lemma TitleIsCut(content: string) returns (i: nat, j: nat, e: nat, b: nat)
    ensures IsStripped(content, i, j) && IsCut(content[i..j], e, b) && TitleOf(content) == content[i..j][..e]
  {
    hide IsStripped, IsCut, TrimLeft, TrimRight;
    i, j := EndsAreStripped(content);
    e, b := HashesAreCut(content[i..j]);
  }

  function HeadingOf(row: Row, offset: nat): Option<Heading> {
    var line := row.visible;
    var indentation := Leading(line, ' ');
    var heading := if indentation <= 3 then line[indentation..] else line;
    var level := Leading(heading, '#');
    if row.heading && 1 <= level <= 6 && (level == |heading| || IsSpace(heading[level])) then
      Some(Heading(level, TitleOf(heading[level..]), offset, offset + |line|))
    else None
  }

  function HeadingsFrom(rows: seq<Row>, offset: nat): seq<Heading> {
    if rows == [] then []
    else AsSeq(HeadingOf(rows[0], offset)) + HeadingsFrom(rows[1..], offset + |rows[0].visible|)
  }

  function AsSeq<T>(x: Option<T>): seq<T> { if x.Some? then [x.value] else [] }

  lemma HeadingsFromRow(rows: seq<Row>, i: nat, offset: nat)
    requires i < |rows|
    ensures HeadingsFrom(rows[i..], offset)
         == AsSeq(HeadingOf(rows[i], offset)) + HeadingsFrom(rows[i + 1..], offset + |rows[i].visible|)
  {
    assert rows[i..][1..] == rows[i + 1..];
  }

  method ReleaseHeadings(rows: seq<Row>) returns (headings: seq<Heading>)
    ensures headings == HeadingsFrom(rows, 0)
  {
    headings := [];
    var offset: nat := 0;
    assert rows[0..] == rows && [] + HeadingsFrom(rows, 0) == HeadingsFrom(rows, 0);
    for i := 0 to |rows|
      invariant headings + HeadingsFrom(rows[i..], offset) == HeadingsFrom(rows, 0)
    {
      HeadingsFromRow(rows, i, offset);
      var heading := HeadingOf(rows[i], offset);
      Assoc(headings, AsSeq(heading), HeadingsFrom(rows[i + 1..], offset + |rows[i].visible|));
      if heading.Some? {
        headings := headings + [heading.value];
      } else {
        assert headings + [] == headings;
      }
      offset := offset + |rows[i].visible|;
    }
    assert headings + [] == headings;
  }

  /** Each heading is one whole line of the text it was found in; headings lie in order. */
  ghost predicate HeadingsLieIn(hs: seq<Heading>, from: nat, to: nat) {
    && (forall m :: 0 <= m < |hs| ==> from <= hs[m].start < hs[m].end <= to && 1 <= hs[m].level <= 6)
    && (forall m, n :: 0 <= m < n < |hs| ==> hs[m].end <= hs[n].start)
  }

  lemma OneMoreHeading(found: Option<Heading>, hs: seq<Heading>, from: nat, next: nat, to: nat)
    requires HeadingsLieIn(hs, next, to) && from <= next
    requires found.Some? ==> 1 <= found.value.level <= 6 && from <= found.value.start < found.value.end <= next <= to
    ensures HeadingsLieIn(AsSeq(found) + hs, from, to)
  {
  }

  lemma HeadingSpansRow(row: Row, offset: nat)
    requires row.visible != "" && HeadingOf(row, offset).Some?
    ensures var h := HeadingOf(row, offset).value;
            1 <= h.level <= 6 && h.start == offset < h.end == offset + |row.visible|
  {
  }

  lemma RowHeadingLies(row: Row, offset: nat, rest: seq<Heading>, to: nat)
    requires row.visible != "" && offset + |row.visible| <= to && HeadingsLieIn(rest, offset + |row.visible|, to)
    ensures HeadingsLieIn(AsSeq(HeadingOf(row, offset)) + rest, offset, to)
  {
    var found := HeadingOf(row, offset);
    if found.Some? {
      HeadingSpansRow(row, offset);
    }
    OneMoreHeading(found, rest, offset, offset + |row.visible|, to);
  }

  lemma {:induction false} HeadingsLie(rows: seq<Row>, offset: nat)
    requires forall i :: 0 <= i < |rows| ==> rows[i].visible != ""
    ensures HeadingsLieIn(HeadingsFrom(rows, offset), offset, offset + |Visible(rows)|)
    decreases |rows|
  {
    if rows != [] {
      var next := offset + |rows[0].visible|;
      HeadingsLie(rows[1..], next);
      RowHeadingLies(rows[0], offset, HeadingsFrom(rows[1..], next), next + |Visible(rows[1..])|);
    }
  }

  /** Up to three spaces, as many hashes as the level says, and then the title's text. */
  ghost predicate IsHeading(line: string, h: Heading) { exists k: nat :: HeadingAt(line, h, k) }

  ghost predicate HeadingAt(line: string, h: Heading, k: nat) {
    && k <= 3 && k + h.level <= |line| && 1 <= h.level <= 6
    && (forall x :: 0 <= x < k ==> line[x] == ' ') && (forall x :: k <= x < k + h.level ==> line[x] == '#')
    && (k + h.level == |line| || line[k + h.level] in {' ', '\t', '\r', '\n'})
    && h.title == TitleOf(line[k + h.level..])
  }

  lemma {:induction false} LeadingCounts(s: string, c: char)
    ensures var n := Leading(s, c); (forall k :: 0 <= k < n ==> s[k] == c) && (n == |s| || s[n] != c)
  {
    if s != "" && s[0] == c {
      LeadingCounts(s[1..], c);
    }
  }

  lemma HeadingMarks(row: Row, offset: nat)
    requires HeadingOf(row, offset).Some?
    ensures IsHeading(row.visible, HeadingOf(row, offset).value)
  {
    var line, h := row.visible, HeadingOf(row, offset).value;
    var k := if Leading(line, ' ') <= 3 then Leading(line, ' ') else 0;
    LeadingCounts(line, ' ');
    LeadingCounts(line[k..], '#');
    assert line[k..][h.level..] == line[k + h.level..];
    forall x | k <= x < k + h.level ensures line[x] == '#' {
      assert line[x] == line[k..][x - k];
    }
    assert HeadingAt(line, h, k);
  }

  lemma {:induction false} LeadingIs(s: string, c: char, n: nat)
    requires n <= |s| && (forall k :: 0 <= k < n ==> s[k] == c) && (n == |s| || s[n] != c)
    ensures Leading(s, c) == n
  {
    if n > 0 {
      LeadingIs(s[1..], c, n - 1);
    }
  }

  lemma MarksMakeHeading(row: Row, offset: nat, k: nat, level: nat)
    requires row.heading && k <= 3 && k + level <= |row.visible| && 1 <= level <= 6
    requires Leading(row.visible, ' ') == k && Leading(row.visible[k..], '#') == level
    requires k + level == |row.visible| || IsSpace(row.visible[k + level])
    ensures HeadingOf(row, offset)
         == Some(Heading(level, TitleOf(row.visible[k + level..]), offset, offset + |row.visible|))
  {
    hide Leading, TitleOf;
    assert row.visible[k..][level..] == row.visible[k + level..];
  }

  lemma MarksCount(line: string, h: Heading, k: nat)
    requires HeadingAt(line, h, k)
    ensures Leading(line, ' ') == k && Leading(line[k..], '#') == h.level
  {
    hide TitleOf;
    LeadingIs(line, ' ', k);
    LeadingIs(line[k..], '#', h.level);
  }

  /** A line with the marks of a heading is found to be one. */
  lemma MarksAreFound(row: Row, h: Heading, offset: nat)
    requires row.heading && IsHeading(row.visible, h)
    ensures HeadingOf(row, offset) == Some(Heading(h.level, h.title, offset, offset + |row.visible|))
  {
    hide Leading, TitleOf, HeadingOf;
    var k: nat :| HeadingAt(row.visible, h, k);
    MarksCount(row.visible, h, k);
    MarksMakeHeading(row, offset, k, h.level);
  }

  /** The heading is that of this row, the rows before it filling the text from `offset`. */
  ghost predicate HeadsRow(rows: seq<Row>, offset: nat, i: nat, h: Heading)
    requires i < |rows|
  {
    && rows[i].heading && IsHeading(rows[i].visible, h)
    && h.start == offset + |Visible(rows[..i])| && h.end == h.start + |rows[i].visible|
  }

  lemma HeadsLater(rows: seq<Row>, offset: nat, i: nat, h: Heading)
    requires 0 < i < |rows|
    ensures HeadsRow(rows, offset, i, h) <==> HeadsRow(rows[1..], offset + |rows[0].visible|, i - 1, h)
  {
    TakeFront(rows, i);
    Prepended(rows[0], rows[1..][..i - 1]);
  }

  lemma HeadsFirst(rows: seq<Row>, offset: nat, h: Heading)
    requires rows != []
    ensures HeadsRow(rows, offset, 0, h) <==> HeadingOf(rows[0], offset) == Some(h)
  {
    hide IsHeading, Leading, TitleOf;
    assert Visible(rows[..0]) == "";
    if HeadsRow(rows, offset, 0, h) {
      MarksAreFound(rows[0], h, offset);
    }
    if HeadingOf(rows[0], offset) == Some(h) {
      HeadingMarks(rows[0], offset);
    }
  }

  lemma {:induction false} FoundIsMarked(rows: seq<Row>, offset: nat, h: Heading) returns (i: nat)
    requires h in HeadingsFrom(rows, offset)
    ensures i < |rows| && HeadsRow(rows, offset, i, h)
    decreases |rows|
  {
    hide HeadingOf, HeadsRow, Visible;
    if HeadingOf(rows[0], offset) == Some(h) {
      HeadsFirst(rows, offset, h);
      i := 0;
    } else {
      var k := FoundIsMarked(rows[1..], offset + |rows[0].visible|, h);
      HeadsLater(rows, offset, k + 1, h);
      i := k + 1;
    }
  }

  lemma {:induction false} MarkedIsFound(rows: seq<Row>, offset: nat, i: nat, h: Heading)
    requires i < |rows| && HeadsRow(rows, offset, i, h)
    ensures h in HeadingsFrom(rows, offset)
    decreases |rows|
  {
    hide HeadingOf, HeadsRow, Visible;
    if i == 0 {
      HeadsFirst(rows, offset, h);
    } else {
      HeadsLater(rows, offset, i, h);
      MarkedIsFound(rows[1..], offset + |rows[0].visible|, i - 1, h);
    }
  }

  /** The headings found are those of the rows with the marks of one, each where its row stands. */
  lemma HeadingsAreMarked(rows: seq<Row>, offset: nat, h: Heading)
    ensures h in HeadingsFrom(rows, offset) <==> exists i :: 0 <= i < |rows| && HeadsRow(rows, offset, i, h)
  {
    hide HeadsRow;
    if h in HeadingsFrom(rows, offset) {
      var i := FoundIsMarked(rows, offset, h);
    }
    if i :| 0 <= i < |rows| && HeadsRow(rows, offset, i, h) {
      MarkedIsFound(rows, offset, i, h);
    }
  }

  lemma {:induction false} HeadingIsLine(ls: seq<string>, rows: seq<Row>, h: Heading, before: string)
    requires |rows| == |ls| && (forall i :: 0 <= i < |ls| ==> Veils(ls[i], rows[i].visible))
    requires h in HeadingsFrom(rows, |before|)
    ensures exists i :: 0 <= i < |ls| && rows[i].heading && IsHeading(rows[i].visible, h)
                        && h.end == h.start + |ls[i]| <= |before + Join(ls)|
                          && (before + Join(ls))[h.start..h.end] == ls[i]
  {
    var all := before + Join(ls);
    assert Veils(ls[0], rows[0].visible);
    assert all == before + ls[0] + Join(ls[1..]);
    if HeadingOf(rows[0], |before|) == Some(h) {
      HeadingMarks(rows[0], |before|);
      assert all[h.start..h.end] == ls[0];
    } else {
      HeadingIsLine(ls[1..], rows[1..], h, before + ls[0]);
      assert before + ls[0] + Join(ls[1..]) == all;
      var i :| 0 <= i < |ls[1..]| && rows[1..][i].heading && IsHeading(rows[1..][i].visible, h)
               && h.end == h.start + |ls[1..][i]| <= |all| && all[h.start..h.end] == ls[1..][i];
      assert ls[i + 1] == ls[1..][i] && rows[i + 1] == rows[1..][i];
    }
  }

  // ---- sections ----

  /** A section's title and where its body lies. */
  datatype Section = Section(title: string, start: nat, end: nat)

  function UpTo(hs: seq<Heading>, level: nat): seq<Heading> {
    if hs == [] then [] else (if hs[0].level <= level then [hs[0]] else []) + UpTo(hs[1..], level)
  }

  /** One section for each heading of the level, up to the next of its level or above, or the end. */
  function SectionsOf(hs: seq<Heading>, level: nat, end: nat): seq<Section> {
    if hs == [] then []
    else
      AsSeq(if hs[0].level != level then None
            else Some(Section(hs[0].title, hs[0].end, if |hs| > 1 then hs[1].start else end)))
      + SectionsOf(hs[1..], level, end)
  }

  lemma SectionsFromHeading(hs: seq<Heading>, i: nat, level: nat, end: nat)
    requires i < |hs|
    ensures SectionsOf(hs[i..], level, end)
         == AsSeq(if hs[i].level != level then None
                  else Some(Section(hs[i].title, hs[i].end, if i + 1 < |hs| then hs[i + 1].start else end)))
            + SectionsOf(hs[i + 1..], level, end)
  {
    assert hs[i..][1..] == hs[i + 1..];
  }

  /** `str.strip`, for some set of white space. */
  function Strip(s: string, white: set<char>): string { TrimRight(TrimLeft(s, white), white) }

  /** One stretch with no white space at either end, and nothing else around it. */
  ghost predicate IsStretch(s: string, white: set<char>, i: nat, j: nat) {
    && i <= j <= |s| && (i < j ==> s[i] !in white && s[j - 1] !in white)
    && forall k :: 0 <= k < |s| && !(i <= k < j) ==> s[k] in white
  }

  /** Stripping leaves such a stretch. */
  lemma StripCuts(s: string, white: set<char>)
    ensures exists i: nat, j: nat :: IsStretch(s, white, i, j) && Strip(s, white) == s[i..j]
  {
    var left := TrimLeft(s, white);
    TrimLeftCuts(s, white);
    TrimRightCuts(left, white);
    var i: nat, n := |s| - |left|, |Strip(s, white)|;
    assert Strip(s, white) == s[i..i + n];
    assert n > 0 ==> s[i] == left[0] && s[i + n - 1] == left[n - 1];
    forall k | 0 <= k < |s| && !(i <= k < i + n) ensures s[k] in white {
      assert k >= i ==> s[k] == left[k - i];
    }
    assert IsStretch(s, white, i, i + n);
  }

  /** What is yielded for a section: its title, its stripped body, and its body as shown. */
  ghost predicate Yields(text: string, visible: string, white: set<char>, s: Section, y: (string, string, string)) {
    && s.start <= s.end <= |text| && |visible| == |text|
    && y == (s.title, Strip(text[s.start..s.end], white), visible[s.start..s.end])
  }

  lemma SectionsFit(text: string, rows: seq<Row>, level: nat)
    requires RowsOf(text, rows)
    ensures |Visible(rows)| == |text| && HeadingsLieIn(UpTo(HeadingsFrom(rows, 0), level), 0, |text|)
  {
    TextIsVeiled(text, rows);
    HeadingsLie(rows, 0);
    UpToLies(HeadingsFrom(rows, 0), level, 0, |text|);
  }

  /** What is left of the work, and what has been done, after the headings before `i`. */
  ghost predicate Halfway(text: string, visible: string, white: set<char>, hs: seq<Heading>, level: nat, i: nat,
                          done: seq<Section>, parts: seq<(string, string, string)>) {
    && i <= |hs| && done + SectionsOf(hs[i..], level, |text|) == SectionsOf(hs, level, |text|)
    && AllYield(text, visible, white, done, parts)
  }

  ghost predicate AllYield(text: string, visible: string, white: set<char>, ss: seq<Section>,
                           parts: seq<(string, string, string)>) {
    |parts| == |ss| && forall k :: 0 <= k < |parts| ==> Yields(text, visible, white, ss[k], parts[k])
  }

  lemma OneMorePart(text: string, visible: string, white: set<char>, hs: seq<Heading>, level: nat, i: nat,
                    done: seq<Section>, parts: seq<(string, string, string)>)
    requires Halfway(text, visible, white, hs, level, i, done, parts) && i < |hs| && |visible| == |text|
    requires HeadingsLieIn(hs, 0, |text|)
    ensures var end := if i + 1 < |hs| then hs[i + 1].start else |text|;
            && hs[i].end <= end <= |text|
            && if hs[i].level != level then Halfway(text, visible, white, hs, level, i + 1, done, parts)
               else Halfway(text, visible, white, hs, level, i + 1, done + [Section(hs[i].title, hs[i].end, end)],
                            parts + [(hs[i].title, Strip(text[hs[i].end..end], white), visible[hs[i].end..end])])
  {
    var end := if i + 1 < |hs| then hs[i + 1].start else |text|;
    var section := if hs[i].level != level then None else Some(Section(hs[i].title, hs[i].end, end));
    SectionsFromHeading(hs, i, level, |text|);
    Assoc(done, AsSeq(section), SectionsOf(hs[i + 1..], level, |text|));
    assert done + [] == done;
  }

  method ReleaseSections(text: string, level: nat, white: set<char>)
    returns (parts: seq<(string, string, string)>)
    ensures exists rows :: RowsOf(text, rows) && ArePartsOf(text, rows, level, white, parts)
  {
    var rows := ReleaseLines(text);
    var found := ReleaseHeadings(rows);
    SectionsFit(text, rows, level);
    parts := PartsOf(text, Visible(rows), white, UpTo(found, level), level);
    assert ArePartsOf(text, rows, level, white, parts);
  }

  /** One part for each section of the level. */
  ghost predicate ArePartsOf(text: string, rows: seq<Row>, level: nat, white: set<char>,
                             parts: seq<(string, string, string)>) {
    AllYield(text, Visible(rows), white, SectionsOf(UpTo(HeadingsFrom(rows, 0), level), level, |text|), parts)
  }

  lemma RowsAgree(line: string, before: Context, row: Row, after: Context, row': Row, after': Context)
    requires RowOf(line, before, row, after) && RowOf(line, before, row', after')
    ensures row == row' && after == after'
  {
    if before.fence.None? && (before.comment || (!OpensFence(FenceOf(line)) && !IsIndented(line))) {
      ShowsOne(line, before.comment, row.visible, after.comment, row'.visible, after'.comment);
    }
  }

  lemma {:induction false} ReadsAgree(ls: seq<string>, rows: seq<Row>, contexts: seq<Context>, rows': seq<Row>,
                                      contexts': seq<Context>, n: nat)
    requires AreRows(ls, rows, contexts) && AreRows(ls, rows', contexts') && n <= |ls|
    ensures contexts[n] == contexts'[n] && rows[..n] == rows'[..n]
  {
    if n > 0 {
      ReadsAgree(ls, rows, contexts, rows', contexts', n - 1);
      RowsAgree(ls[n - 1], contexts[n - 1], rows[n - 1], contexts[n], rows'[n - 1], contexts'[n]);
      TakeNext(rows, n - 1);
      TakeNext(rows', n - 1);
    }
  }

  /** A text has one reading, so its rows, headings and parts are determined. */
  lemma RowsAreUnique(text: string, rows: seq<Row>, rows': seq<Row>)
    requires RowsOf(text, rows) && RowsOf(text, rows')
    ensures rows == rows'
  {
    var contexts :| AreRows(Lines(text), rows, contexts);
    var contexts' :| AreRows(Lines(text), rows', contexts');
    ReadsAgree(Lines(text), rows, contexts, rows', contexts', |rows|);
    assert rows[..|rows|] == rows && rows'[..|rows'|] == rows';
  }

  method PartsOf(text: string, visible: string, white: set<char>, headings: seq<Heading>, level: nat)
    returns (parts: seq<(string, string, string)>)
    requires HeadingsLieIn(headings, 0, |text|) && |visible| == |text|
    ensures AllYield(text, visible, white, SectionsOf(headings, level, |text|), parts)
  {
    parts := [];
    ghost var sections: seq<Section> := [];
    assert headings[0..] == headings && [] + SectionsOf(headings, level, |text|) == SectionsOf(headings, level, |text|);
    for i := 0 to |headings|
      invariant Halfway(text, visible, white, headings, level, i, sections, parts)
    {
      OneMorePart(text, visible, white, headings, level, i, sections, parts);
      var heading := headings[i];
      if heading.level == level {
        var end := if i + 1 < |headings| then headings[i + 1].start else |text|;
        parts := parts + [(heading.title, Strip(text[heading.end..end], white), visible[heading.end..end])];
        sections := sections + [Section(heading.title, heading.end, end)];
      }
    }
    assert sections + [] == sections;
  }

  lemma {:induction false} UpToLies(hs: seq<Heading>, level: nat, from: nat, to: nat)
    requires HeadingsLieIn(hs, from, to)
    ensures HeadingsLieIn(UpTo(hs, level), from, to)
    ensures forall h :: h in UpTo(hs, level) <==> h in hs && h.level <= level
  {
    if hs != [] {
      UpToLies(hs[1..], level, hs[0].end, to);
      OneMoreHeading(if hs[0].level <= level then Some(hs[0]) else None, UpTo(hs[1..], level), from, hs[0].end, to);
      assert hs == [hs[0]] + hs[1..];
    }
  }

  /** The section follows this heading of its level, and no heading of its level or above starts inside it. */
  ghost predicate IsSection(s: Section, hs: seq<Heading>, level: nat, end: nat) {
    && s.start <= s.end <= end
    && (exists h :: h in hs && h.level == level && h.title == s.title && h.end == s.start)
    && (forall h :: h in hs && h.level <= level ==> h.start < s.start || h.start >= s.end)
    && (s.end == end || exists h :: h in hs && h.level <= level && h.start == s.end)
  }

  ghost predicate SectionsLie(ss: seq<Section>, from: nat) {
    && (forall m :: 0 <= m < |ss| ==> from <= ss[m].start <= ss[m].end)
    && (forall m, n :: 0 <= m < n < |ss| ==> ss[m].end <= ss[n].start)
  }

  /** What there is to say of the sections between these headings. */
  ghost predicate AreSections(ss: seq<Section>, hs: seq<Heading>, level: nat, end: nat, from: nat) {
    && SectionsLie(ss, from)
    && (forall s :: s in ss ==> s.start > from && IsSection(s, hs, level, end))
  }

  ghost predicate Follows(s: Section, h: Heading) { s.start == h.end && s.title == h.title }

  ghost predicate EachFollowed(ss: seq<Section>, hs: seq<Heading>, level: nat) {
    forall h :: h in hs && h.level == level ==> exists s :: s in ss && Follows(s, h)
  }

  lemma {:induction false} NoHeadingIsLost(hs: seq<Heading>, level: nat, end: nat)
    ensures EachFollowed(SectionsOf(UpTo(hs, level), level, end), hs, level)
    decreases |hs|
  {
    if hs != [] {
      var some := UpTo(hs[1..], level);
      var later := SectionsOf(some, level, end);
      NoHeadingIsLost(hs[1..], level, end);
      var ss := SectionsOf(UpTo(hs, level), level, end);
      if hs[0].level <= level {
        assert ([hs[0]] + some)[1..] == some;
        assert forall s :: s in later ==> s in ss;
      } else {
        assert [] + some == some;
      }
      forall h | h in hs && h.level == level ensures exists s :: s in ss && Follows(s, h) {
        if h == hs[0] {
          assert Follows(ss[0], h);
        } else {
          assert h in hs[1..];
          var s :| s in later && Follows(s, h);
        }
      }
    }
  }

  lemma {:induction false} SectionsAreBetween(hs: seq<Heading>, level: nat, end: nat, from: nat)
    requires HeadingsLieIn(hs, from, end) && forall h :: h in hs ==> h.level <= level
    ensures AreSections(SectionsOf(hs, level, end), hs, level, end, from)
    decreases |hs|
  {
    if hs != [] {
      var h, rest := hs[0], hs[1..];
      var stop := if |hs| > 1 then hs[1].start else end;
      assert hs == [h] + rest;
      assert HeadingsLieIn(rest, stop, end);
      SectionsAreBetween(rest, level, end, stop);
      OneMoreSection(h, rest, SectionsOf(rest, level, end), level, end, from, stop);
    }
  }

  lemma NewSection(h: Heading, rest: seq<Heading>, level: nat, end: nat, stop: nat)
    requires h.start < h.end <= stop <= end && h.level == level && HeadingsLieIn(rest, stop, end)
    requires stop == (if rest != [] then rest[0].start else end) && forall x :: x in rest ==> x.level <= level
    ensures IsSection(Section(h.title, h.end, stop), [h] + rest, level, end)
  {
    var hs := [h] + rest;
    assert forall x :: x in hs <==> x == h || x in rest;
    assert rest != [] ==> rest[0] in hs;
    forall x | x in hs && x.level <= level ensures x.start < h.end || x.start >= stop {
      if x in rest {
        var k :| 0 <= k < |rest| && rest[k] == x;
      }
    }
  }

  lemma OneMoreSection(h: Heading, rest: seq<Heading>, later: seq<Section>, level: nat, end: nat, from: nat, stop: nat)
    requires from <= h.start < h.end <= stop <= end && h.level <= level
    requires stop == (if rest != [] then rest[0].start else end) && HeadingsLieIn(rest, stop, end)
    requires (forall x :: x in rest ==> x.level <= level) && AreSections(later, rest, level, end, stop)
    ensures var first := if h.level == level then [Section(h.title, h.end, stop)] else [];
            AreSections(first + later, [h] + rest, level, end, from)
  {
    var hs := [h] + rest;
    var first := if h.level == level then [Section(h.title, h.end, stop)] else [];
    forall s | s in later ensures s.start > from && IsSection(s, hs, level, end) {
      LaterSection(s, h, rest, level, end);
    }
    if h.level == level {
      NewSection(h, rest, level, end, stop);
      assert first[0] in first + later;
    }
    assert SectionsLie(first + later, from);
  }

  lemma LaterSection(s: Section, h: Heading, rest: seq<Heading>, level: nat, end: nat)
    requires IsSection(s, rest, level, end) && h.start < s.start
    ensures IsSection(s, [h] + rest, level, end)
  {
    var hs := [h] + rest;
    assert forall x :: x in hs <==> x == h || x in rest;
  }

  lemma SectionsAmongAll(ss: seq<Section>, some: seq<Heading>, hs: seq<Heading>, level: nat, end: nat)
    requires AreSections(ss, some, level, end, 0) && forall h :: h in some <==> h in hs && h.level <= level
    ensures AreSections(ss, hs, level, end, 0)
  {
    forall s | s in ss ensures s.start > 0 && IsSection(s, hs, level, end) {
      assert IsSection(s, some, level, end);
    }
  }

  lemma TextIsVeiled(text: string, rows: seq<Row>)
    requires RowsOf(text, rows)
    ensures Veils(text, Visible(rows)) && forall i :: 0 <= i < |rows| ==> rows[i].visible != ""
  {
    var ls := Lines(text);
    var contexts :| AreRows(ls, rows, contexts);
    LinesAreTheText(text);
    forall i | 0 <= i < |ls| ensures Veils(ls[i], rows[i].visible) && rows[i].visible != "" {
      RowsVeil(ls, rows, contexts, i);
    }
    VisibleVeils(ls, rows);
  }

  /**
   * The sections of a level are disjoint stretches of the original text, in order, one after each
   * heading of that level, reaching to the next heading of that level or above; comments are masked
   * without moving a character.
   */
  lemma SectionsSplitTheText(text: string, level: nat, rows: seq<Row>)
    requires RowsOf(text, rows)
    ensures Veils(text, Visible(rows))
    ensures HeadingsLieIn(HeadingsFrom(rows, 0), 0, |text|)
    ensures AreSections(SectionsOf(UpTo(HeadingsFrom(rows, 0), level), level, |text|), HeadingsFrom(rows, 0), level,
        |text|, 0)
    ensures EachFollowed(SectionsOf(UpTo(HeadingsFrom(rows, 0), level), level, |text|), HeadingsFrom(rows, 0), level)
  {
    NoHeadingIsLost(HeadingsFrom(rows, 0), level, |text|);
    TextIsVeiled(text, rows);
    var hs := HeadingsFrom(rows, 0);
    HeadingsLie(rows, 0);
    UpToLies(hs, level, 0, |text|);
    SectionsAreBetween(UpTo(hs, level), level, |text|, 0);
    SectionsAmongAll(SectionsOf(UpTo(hs, level), level, |text|), UpTo(hs, level), hs, level, |text|);
  }

  /** The text without the white space around it. */
  ghost predicate IsBody(text: string, white: set<char>, start: nat, end: nat, i: nat, j: nat) {
    && start <= i <= j <= end <= |text| && (i < j ==> text[i] !in white && text[j - 1] !in white)
    && forall k :: start <= k < end && !(i <= k < j) ==> text[k] in white
  }

  /** Up to the next heading of the level or above, or the end of the text. */
  ghost predicate ReachesTo(hs: seq<Heading>, h: Heading, level: nat, last: nat, end: nat) {
    && h in hs && h.level == level && h.end <= end <= last
    && (end == last || exists g :: g in hs && g.level <= level && g.start == end)
    && forall g :: g in hs && g.level <= level ==> g.start < h.end || g.start >= end
  }

  lemma SectionReaches(s: Section, hs: seq<Heading>, level: nat, last: nat) returns (h: Heading)
    requires IsSection(s, hs, level, last)
    ensures ReachesTo(hs, h, level, last, s.end) && h.title == s.title && h.end == s.start
  {
    h :| h in hs && h.level == level && h.title == s.title && h.end == s.start;
  }

  lemma StrippedWithin(text: string, white: set<char>, start: nat, end: nat) returns (i: nat, j: nat)
    requires start <= end <= |text|
    ensures IsBody(text, white, start, end, i, j) && Strip(text[start..end], white) == text[i..j]
  {
    hide Strip;
    var body := text[start..end];
    StripCuts(body, white);
    var a: nat, b: nat :| IsStretch(body, white, a, b) && Strip(body, white) == body[a..b];
    i, j := start + a, start + b;
    BodyOf(text, white, start, end, a, b);
  }

  lemma BodyOf(text: string, white: set<char>, start: nat, end: nat, a: nat, b: nat)
    requires start <= end <= |text| && IsStretch(text[start..end], white, a, b)
    ensures IsBody(text, white, start, end, start + a, start + b)
    ensures text[start..end][a..b] == text[start + a..start + b]
  {
    var body := text[start..end];
    forall k | start <= k < end ensures body[k - start] == text[k] {}
  }

  /**
   * What is yielded for each section: the title of a heading of the level, the original text from its end up to
   * the next heading of that level or above without the white space around it, and what shows of that text.
   */
  lemma PartsAreStretches(text: string, rows: seq<Row>, level: nat, white: set<char>,
                          parts: seq<(string, string, string)>, k: nat)
    returns (h: Heading, end: nat, i: nat, j: nat)
    requires RowsOf(text, rows) && ArePartsOf(text, rows, level, white, parts) && k < |parts|
    ensures ReachesTo(HeadingsFrom(rows, 0), h, level, |text|, end) && |Visible(rows)| == |text|
    ensures IsBody(text, white, h.end, end, i, j) && parts[k] == (h.title, text[i..j], Visible(rows)[h.end..end])
  {
    hide *;
    var hs := HeadingsFrom(rows, 0);
    PartAt(text, rows, level, white, parts, k);
    var s := SectionsOf(UpTo(hs, level), level, |text|)[k];
    SectionAt(text, rows, level, k);
    h := SectionReaches(s, hs, level, |text|);
    end := s.end;
    i, j := StrippedWithin(text, white, s.start, s.end);
  }

  lemma PartAt(text: string, rows: seq<Row>, level: nat, white: set<char>, parts: seq<(string, string, string)>, k: nat)
    requires ArePartsOf(text, rows, level, white, parts) && k < |parts|
    ensures var ss := SectionsOf(UpTo(HeadingsFrom(rows, 0), level), level, |text|);
            && k < |ss| && ss[k].start <= ss[k].end <= |text| == |Visible(rows)|
            && parts[k] == (ss[k].title, Strip(text[ss[k].start..ss[k].end], white),
                            Visible(rows)[ss[k].start..ss[k].end])
  {
    hide Strip, Visible, SectionsOf, UpTo, HeadingsFrom;
    var ss := SectionsOf(UpTo(HeadingsFrom(rows, 0), level), level, |text|);
    assert Yields(text, Visible(rows), white, ss[k], parts[k]);
  }

  lemma SectionAt(text: string, rows: seq<Row>, level: nat, k: nat)
    requires RowsOf(text, rows) && k < |SectionsOf(UpTo(HeadingsFrom(rows, 0), level), level, |text|)|
    ensures IsSection(SectionsOf(UpTo(HeadingsFrom(rows, 0), level), level, |text|)[k], HeadingsFrom(rows, 0), level,
                      |text|)
  {
    hide RowsOf, Veils, SectionsOf, UpTo, HeadingsFrom, HeadingsLieIn, IsSection, SectionsLie, EachFollowed;
    SectionsSplitTheText(text, level, rows);
    var ss := SectionsOf(UpTo(HeadingsFrom(rows, 0), level), level, |text|);
    assert ss[k] in ss;
  }
}
