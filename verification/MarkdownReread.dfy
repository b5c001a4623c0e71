// Reading masked release notes a second time: which lines the blanks turn into code fences, and what
// the second reading then makes of the sections.
module MarkdownReread {
  import opened Wrappers
  import opened Sequences
  import opened MarkdownSpans
  import opened MarkdownComments
  import opened MarkdownSections

  // ---- where a fence stands ----

  lemma {:induction false} LeadingIs(s: string, c: char, n: nat)
    requires n <= |s| && (forall k :: 0 <= k < n ==> s[k] == c) && (n == |s| || s[n] != c)
    ensures Leading(s, c) == n
    decreases n
  {
    if n > 0 {
      LeadingIs(s[1..], c, n - 1);
    }
  }

  /** At most three spaces, and then three or more of one marker, from `n` to `m`. */
  ghost predicate FenceAt(s: string, n: nat, m: nat) {
    && n <= 3 && n + 3 <= m <= |s| && s[n] in "`~"
    && (forall k :: 0 <= k < n ==> s[k] == ' ') && (forall k :: n <= k < m ==> s[k] == s[n])
    && (m == |s| || s[m] != s[n])
  }

  lemma FenceStands(s: string) returns (n: nat, m: nat)
    requires FenceOf(s).Some?
    ensures FenceAt(s, n, m)
    ensures FenceOf(s) == Some((Fence(s[n], m - n), s[m..]))
  {
    n := Leading(s, ' ');
    LeadingCounts(s, ' ');
    var content := s[n..];
    LeadingCounts(content, content[0]);
    m := n + Leading(content, content[0]);
    forall k | n <= k < m ensures s[k] == s[n] { assert s[k] == content[k - n]; }
    assert content[m - n..] == s[m..];
    assert m < |s| ==> s[m] == content[m - n];
  }

  lemma FenceIsThere(s: string, n: nat, m: nat)
    requires FenceAt(s, n, m)
    ensures FenceOf(s) == Some((Fence(s[n], m - n), s[m..]))
  {
    LeadingIs(s, ' ', n);
    var content := s[n..];
    LeadingIs(content, content[0], m - n);
    assert content[m - n..] == s[m..];
  }

  // ---- which masked lines show a fence ----

  /** The part of the line a fence could show in: all of it, or what follows a comment's close at its very start. */
  function Bare(line: string, inside: bool): Option<string> {
    if !inside then Some(line) else if "-->" <= line then Some("   " + line[3..]) else None
  }

  /**
   * Masked, the line shows a fence: with a comment's close at its very start taken for three spaces there
   * is one, and when its marker is backticks, all further backticks stand in comments.
   */
  ghost predicate ShowsFence(line: string, inside: bool, ps: set<Piece>) {
    match Bare(line, inside)
    case None => false
    case Some(bare) =>
      match FenceOf(bare)
      case None => false
      case Some((fence, rest)) =>
        fence.marker == '~' || forall k :: |line| - |rest| <= k < |line| && line[k] == '`' ==> InComment(ps, k)
  }

  lemma ClosesAtOnce(line: string)
    ensures "-->" <= line <==> CloseFrom(line, 0) == Some(3)
  {
    if |line| >= 3 {
      assert line[..3] == [line[0], line[1], line[2]];
    }
  }

  lemma BlankAt(line: string, ps: set<Piece>, visible: string, p: Piece, k: nat)
    requires Masks(line, ps, visible) && p in ps && p.Comment? && Holds(p, k) && k < |line|
    ensures visible[k] == if IsNewline(line[k]) then line[k] else ' '
  {
    assert InComment(ps, k);
  }

  lemma OpeningIsBlank(line: string, ps: set<Piece>, visible: string, p: Piece, k: nat)
    requires Masks(line, ps, visible) && p in ps && p.Comment? && OpensComment(line, p.from)
    requires p.from <= k < p.from + 4 <= p.to
    ensures visible[k] == ' '
  {
    BlankAt(line, ps, visible, p, k);
    assert k == p.from || k == p.from + 1 || k == p.from + 2 || k == p.from + 3;
  }

  /** A comment of the line was opened there, or is the one the line began in. */
  lemma CommentBegan(line: string, inside: bool, ps: set<Piece>, p: Piece)
    requires AreRead(line, 0, inside, ps) && p in ps && p.Comment?
    ensures p.from < p.to <= |line|
    ensures OpensComment(line, p.from) ==> p.from + 4 <= p.to
    ensures !OpensComment(line, p.from) ==>
        inside && p.from == 0 && (p.to == |line| || CloseFrom(line, 0) == Some(p.to))
  {
    assert IsPiece(line, 0, inside, p);
    if OpensComment(line, p.from) {
      OpeningIsLong(line, p.from);
    }
  }

  lemma OpeningIsLong(s: string, i: nat)
    requires OpensComment(s, i)
    ensures CloseFrom(s, i).Some? ==> CloseFrom(s, i).value >= i + 5
  {
    assert CloseFrom(s, i) == CloseFrom(s, i + 1) == CloseFrom(s, i + 2);
  }

  /** No blank stands at or right after the spaces before a fence. */
  lemma NoBlankInFence(s: string, n: nat, m: nat, k: nat)
    requires FenceAt(s, n, m) && k < m
    ensures s[k] == ' ' ==> k < n
    ensures s[k] == ' ' || s[k] == '`' || s[k] == '~'
  {
  }

  /** Before a fence shown by the masked line no comment stands but one that closes with the third character. */
  lemma NoneBefore(line: string, inside: bool, ps: set<Piece>, visible: string, n: nat, m: nat, p: Piece)
    requires AreRead(line, 0, inside, ps) && Masks(line, ps, visible) && FenceAt(visible, n, m)
    requires p in ps && p.Comment? && p.from < m
    ensures inside && "-->" <= line && n == 3 && p == Comment(0, 3)
  {
    CommentBegan(line, inside, ps, p);
    if OpensComment(line, p.from) {
      forall k | p.from <= k < p.from + 4 ensures visible[k] == ' ' { OpeningIsBlank(line, ps, visible, p, k); }
      NoBlankInFence(visible, n, m, p.from);
      NoBlankInFence(visible, n, m, p.from + 1);
      NoBlankInFence(visible, n, m, p.from + 2);
      NoBlankInFence(visible, n, m, p.from + 3);
    } else {
      if n < p.to {
        BlankAt(line, ps, visible, p, n);
      }
      ClosesAtOnce(line);
    }
  }

  lemma NotBlanked(line: string, ps: set<Piece>, visible: string, k: nat)
    requires Masks(line, ps, visible) && k < |line| && !InComment(ps, k)
    ensures visible[k] == line[k]
  {
  }

  lemma FenceEnds(s: string, n: nat, m: nat)
    requires FenceAt(s, n, m)
    ensures n < m && (s[n] == '`' || s[n] == '~') && (m < |s| ==> s[m] != s[n])
  {
  }

  /** The characters of a shown fence are those of the line. */
  lemma ShownAsItIs(line: string, inside: bool, ps: set<Piece>, visible: string, n: nat, m: nat, k: nat)
    requires AreRead(line, 0, inside, ps) && Masks(line, ps, visible) && FenceAt(visible, n, m)
    requires (if inside then 3 else 0) <= k <= m && k < |line|
    ensures k < m ==> visible[k] == line[k]
    ensures k == m ==> line[m] != visible[n]
  {
    FenceEnds(visible, n, m);
    if InComment(ps, k) {
      var p :| p in ps && p.Comment? && Holds(p, k);
      if p.from < m {
        NoneBefore(line, inside, ps, visible, n, m, p);
        assert false;
      }
      CommentBegan(line, inside, ps, p);
    } else {
      NotBlanked(line, ps, visible, k);
    }
  }

  lemma MaskedShows(line: string, inside: bool, ps: set<Piece>, visible: string, n: nat, m: nat)
    requires AreRead(line, 0, inside, ps) && Masks(line, ps, visible) && FenceAt(visible, n, m)
    ensures Bare(line, inside).Some? && FenceAt(Bare(line, inside).value, n, m)
    ensures Bare(line, inside).value[n] == visible[n]
  {
    if inside {
      var p := FirstComment(line, ps);
      NoneBefore(line, inside, ps, visible, n, m, p);
    }
    var bare := Bare(line, inside).value;
    forall k | 0 <= k <= m && k < |line| ensures if k < m then bare[k] == visible[k] else bare[k] != visible[n] {
      if k >= 3 || !inside {
        ShownAsItIs(line, inside, ps, visible, n, m, k);
        assert bare[k] == line[k];
      } else {
        assert k < n;
      }
    }
  }

  /** A line that starts inside a comment has one at its start. */
  lemma FirstComment(line: string, ps: set<Piece>) returns (p: Piece)
    requires AreRead(line, 0, true, ps) && line != ""
    ensures p in ps && p.Comment? && p.from == 0 && ("-->" <= line ==> p.to == 3)
  {
    assert !NothingBegins(line, 0, true, 0);
    p :| p in ps && Holds(p, 0);
    assert IsPiece(line, 0, true, p);
    ClosesAtOnce(line);
  }

  lemma BareTail(line: string, bare: string, k: nat)
    requires Bare(line, true) == Some(bare)
    ensures 3 <= k < |line| ==> bare[k] == line[k]
  {
  }

  /** Before a fence of the bare line no comment stands but the one the line began in. */
  lemma NoneInFence(line: string, inside: bool, ps: set<Piece>, bare: string, n: nat, m: nat, p: Piece)
    requires AreRead(line, 0, inside, ps) && Bare(line, inside) == Some(bare) && FenceAt(bare, n, m)
    requires p in ps && p.Comment? && p.from < m
    ensures inside && p == Comment(0, 3)
  {
    CommentBegan(line, inside, ps, p);
    NoBlankInFence(bare, n, m, p.from);
    if inside {
      var q := FirstComment(line, ps);
      BareTail(line, bare, p.from);
    }
  }

  lemma BareAsItIs(line: string, inside: bool, ps: set<Piece>, visible: string, bare: string, n: nat, m: nat, k: nat)
    requires AreRead(line, 0, inside, ps) && Masks(line, ps, visible)
    requires Bare(line, inside) == Some(bare) && FenceAt(bare, n, m)
    requires (if inside then 3 else 0) <= k <= m && k < |line|
    ensures k < m ==> visible[k] == bare[k]
    ensures k == m ==> visible[m] != bare[n]
  {
    assert bare[k] == line[k];
    if InComment(ps, k) {
      var p :| p in ps && p.Comment? && Holds(p, k);
      if p.from < m {
        NoneInFence(line, inside, ps, bare, n, m, p);
      } else {
        CommentEnds(line, inside, ps, p);
      }
    }
  }

  lemma BareShows(line: string, inside: bool, ps: set<Piece>, visible: string, bare: string, n: nat, m: nat)
    requires AreRead(line, 0, inside, ps) && Masks(line, ps, visible)
    requires Bare(line, inside) == Some(bare) && FenceAt(bare, n, m)
    ensures FenceAt(visible, n, m)
  {
    forall k | 0 <= k <= m && k < |line| ensures if k < m then visible[k] == bare[k] else visible[k] != bare[n] {
      if k >= 3 || !inside {
        BareAsItIs(line, inside, ps, visible, bare, n, m, k);
      } else {
        var p := FirstComment(line, ps);
        assert Holds(p, k) && line[..3] == "-->" && line[k] == line[..3][k];
        assert bare[k] == ' ';
      }
    }
  }

  lemma TailShows(line: string, ps: set<Piece>, visible: string, m: nat)
    requires Masks(line, ps, visible) && m <= |line|
    ensures '`' !in visible[m..] <==> forall k :: m <= k < |line| && line[k] == '`' ==> InComment(ps, k)
  {
    if '`' !in visible[m..] {
      forall k | m <= k < |line| && line[k] == '`' ensures InComment(ps, k) {
        assert visible[k] == visible[m..][k - m];
      }
    }
    if forall k :: m <= k < |line| && line[k] == '`' ==> InComment(ps, k) {
      forall k | 0 <= k < |visible[m..]| ensures visible[m..][k] != '`' {
        assert visible[m..][k] == visible[m + k];
      }
    }
  }

  /** Exactly when a masked line, read again, opens a code fence. */
  lemma MaskedOpensFence(line: string, inside: bool, ps: set<Piece>, visible: string)
    requires AreRead(line, 0, inside, ps) && Masks(line, ps, visible)
    ensures OpensFence(FenceOf(visible)) <==> ShowsFence(line, inside, ps)
  {
    if FenceOf(visible).Some? {
      var n, m := FenceStands(visible);
      MaskedShows(line, inside, ps, visible, n, m);
      FenceIsThere(Bare(line, inside).value, n, m);
      TailShows(line, ps, visible, m);
    } else if Bare(line, inside).Some? && FenceOf(Bare(line, inside).value).Some? {
      var bare := Bare(line, inside).value;
      var n, m := FenceStands(bare);
      BareShows(line, inside, ps, visible, bare, n, m);
      FenceIsThere(visible, n, m);
    }
  }

  // ---- one line read again ----

  /** The blanks left by this line's comments read as a code fence it does not have. */
  ghost predicate GainsFence(line: string, before: Context) {
    && before.fence.None? && (before.comment || !(OpensFence(FenceOf(line)) || IsIndented(line)))
    && exists ps :: AreRead(line, 0, before.comment, ps) && ShowsFence(line, before.comment, ps)
  }

  lemma GainsWhenShown(line: string, before: Context, row: Row, after: Context)
    requires RowOf(line, before, row, after)
    ensures row.heading ==> (GainsFence(line, before) <==> OpensFence(FenceOf(row.visible)))
    ensures GainsFence(line, before) ==> row.heading
  {
    if row.heading {
      var ps :| AreRead(line, 0, before.comment, ps) && Masks(line, ps, row.visible);
      MaskedOpensFence(line, before.comment, ps, row.visible);
      if GainsFence(line, before) {
        var qs :| AreRead(line, 0, before.comment, qs) && ShowsFence(line, before.comment, qs);
        ReadingIsUnique(line, 0, before.comment, ps, qs);
      }
    }
  }

  lemma IndentedIsNoHeading(row: Row, offset: nat)
    requires IsIndented(row.visible)
    ensures HeadingOf(row, offset).None?
  {
    var line := row.visible;
    LeadingCounts(line, ' ');
    LeadingCounts(line, '#');
    if "    " <= line {
      assert line[..4] == "    ";
      assert line[0] == line[..4][0] && line[1] == line[..4][1] && line[2] == line[..4][2] && line[3] == line[..4][3];
    } else {
      assert line[0] == line[..1][0];
    }
  }

  /** The second reading of a masked line, unless it finds a fence there. */
  lemma MaskedAgain(line: string, before: Context, row: Row, after: Context, again: Row, next: Context)
    requires RowOf(line, before, row, after) && row.heading && !OpensFence(FenceOf(row.visible))
    requires RowOf(row.visible, Context(None, false), again, next)
    ensures next == Context(None, false) && again.visible == row.visible && again.guidance == row.guidance
    ensures forall offset :: HeadingOf(again, offset) == HeadingOf(row, offset)
  {
    if IsIndented(row.visible) {
      forall offset ensures HeadingOf(again, offset) == HeadingOf(row, offset) {
        IndentedIsNoHeading(row, offset);
        IndentedIsNoHeading(again, offset);
      }
    } else {
      MaskingIsIdempotent(line, before.comment, row.visible, after.comment);
      ShowsOne(row.visible, false, row.visible, false, again.visible, next.comment);
    }
  }

  /** The second reading leaves a line in the same fence as the first exactly when it gains none. */
  lemma RowAgain(line: string, before: Context, row: Row, after: Context, again: Row, next: Context)
    requires RowOf(line, before, row, after) && (before.fence.Some? ==> !before.comment)
    requires RowOf(row.visible, Context(before.fence, false), again, next)
    ensures next == Context(after.fence, false) <==> !GainsFence(line, before)
    ensures !GainsFence(line, before) ==>
              again.visible == row.visible && again.guidance == row.guidance
              && forall offset :: HeadingOf(again, offset) == HeadingOf(row, offset)
    ensures GainsFence(line, before) ==>
              FenceOf(row.visible).Some? && next.fence == Some(FenceOf(row.visible).value.0) && !again.heading
  {
    GainsWhenShown(line, before, row, after);
    if row.heading && !OpensFence(FenceOf(row.visible)) {
      MaskedAgain(line, before, row, after, again, next);
    }
  }

  // ---- a stretch of lines read again ----

  function Visibles(rows: seq<Row>): (vs: seq<string>)
    ensures |vs| == |rows| && forall i :: 0 <= i < |vs| ==> vs[i] == rows[i].visible
  {
    seq(|rows|, i requires 0 <= i < |rows| => rows[i].visible)
  }

  /** Before every line the second reading is in the fence the first was in, and in no comment. */
  ghost predicate SameFences(contexts: seq<Context>, again: seq<Context>) {
    |again| == |contexts| && forall i :: 0 <= i < |contexts| ==> again[i] == Context(contexts[i].fence, false)
  }

  ghost predicate SameLook(rows: seq<Row>, again: seq<Row>) {
    |again| == |rows| && forall i :: 0 <= i < |rows| ==>
      again[i].visible == rows[i].visible && again[i].guidance == rows[i].guidance
      && forall offset :: HeadingOf(again[i], offset) == HeadingOf(rows[i], offset)
  }

  lemma {:induction false} NoCommentInFence(ls: seq<string>, rows: seq<Row>, contexts: seq<Context>, i: nat)
    requires Reads(ls, rows, contexts) && contexts[0].fence.None? && i <= |ls|
    ensures contexts[i].fence.Some? ==> !contexts[i].comment
    decreases i
  {
    if i > 0 {
      NoCommentInFence(ls, rows, contexts, i - 1);
      assert RowOf(ls[i - 1], contexts[i - 1], rows[i - 1], contexts[i]);
    }
  }

  /** Until a line gains a fence, the second reading is where the first was. */
  lemma {:induction false} SameUpTo(ls: seq<string>, rows: seq<Row>, contexts: seq<Context>, again: seq<Row>,
                                    after: seq<Context>, i: nat)
    requires Reads(ls, rows, contexts) && contexts[0].fence.None? && i <= |ls|
    requires AreRows(Visibles(rows), again, after)
    requires forall k :: 0 <= k < i ==> !GainsFence(ls[k], contexts[k])
    ensures after[i] == Context(contexts[i].fence, false)
    decreases i
  {
    if i > 0 {
      SameUpTo(ls, rows, contexts, again, after, i - 1);
      NoCommentInFence(ls, rows, contexts, i - 1);
      assert RowOf(ls[i - 1], contexts[i - 1], rows[i - 1], contexts[i]);
      assert RowOf(rows[i - 1].visible, after[i - 1], again[i - 1], after[i]);
      RowAgain(ls[i - 1], contexts[i - 1], rows[i - 1], contexts[i], again[i - 1], after[i]);
    }
  }

  lemma LineAgain(ls: seq<string>, rows: seq<Row>, contexts: seq<Context>, again: seq<Row>, after: seq<Context>, i: nat)
    requires Reads(ls, rows, contexts) && contexts[0].fence.None? && i < |ls|
    requires AreRows(Visibles(rows), again, after) && after[i] == Context(contexts[i].fence, false)
    ensures after[i + 1] == Context(contexts[i + 1].fence, false) <==> !GainsFence(ls[i], contexts[i])
    ensures !GainsFence(ls[i], contexts[i]) ==>
              again[i].visible == rows[i].visible && again[i].guidance == rows[i].guidance
              && forall offset :: HeadingOf(again[i], offset) == HeadingOf(rows[i], offset)
    ensures GainsFence(ls[i], contexts[i]) ==>
              FenceOf(rows[i].visible).Some? && after[i + 1].fence == Some(FenceOf(rows[i].visible).value.0)
  {
    NoCommentInFence(ls, rows, contexts, i);
    assert RowOf(ls[i], contexts[i], rows[i], contexts[i + 1]);
    assert RowOf(rows[i].visible, after[i], again[i], after[i + 1]);
    RowAgain(ls[i], contexts[i], rows[i], contexts[i + 1], again[i], after[i + 1]);
  }

  /**
   * Reading masked lines again finds the same fences as the first reading if and only if no line gains
   * one by being masked; then it shows the same text, guidance and headings.
   */
  lemma RereadingIsSafe(ls: seq<string>, rows: seq<Row>, contexts: seq<Context>, again: seq<Row>, after: seq<Context>)
    requires Reads(ls, rows, contexts) && contexts[0].fence.None?
    requires AreRows(Visibles(rows), again, after)
    ensures SameFences(contexts, after) <==> forall i :: 0 <= i < |ls| ==> !GainsFence(ls[i], contexts[i])
    ensures SameFences(contexts, after) ==> SameLook(rows, again)
  {
    if forall i :: 0 <= i < |ls| ==> !GainsFence(ls[i], contexts[i]) {
      forall i | 0 <= i < |contexts| ensures after[i] == Context(contexts[i].fence, false) {
        SameUpTo(ls, rows, contexts, again, after, i);
      }
    }
    if SameFences(contexts, after) {
      forall i | 0 <= i < |ls|
        ensures !GainsFence(ls[i], contexts[i])
        ensures again[i].visible == rows[i].visible && again[i].guidance == rows[i].guidance
        ensures forall offset :: HeadingOf(again[i], offset) == HeadingOf(rows[i], offset)
      {
        LineAgain(ls, rows, contexts, again, after, i);
      }
    }
  }

  /** What a gained fence costs: no line is a heading any more until one closes it. */
  lemma {:induction false} GainedFenceHides(ls: seq<string>, rows: seq<Row>, contexts: seq<Context>, again: seq<Row>,
                                            after: seq<Context>, i: nat, j: nat)
    requires Reads(ls, rows, contexts) && contexts[0].fence.None? && i < j < |ls|
    requires AreRows(Visibles(rows), again, after)
    requires (forall k :: 0 <= k < i ==> !GainsFence(ls[k], contexts[k])) && GainsFence(ls[i], contexts[i])
    requires FenceOf(rows[i].visible).Some? ==>
               forall k :: i < k < j ==> !ClosesFence(FenceOf(rows[k].visible), FenceOf(rows[i].visible).value.0)
    ensures FenceOf(rows[i].visible).Some? && after[j].fence == Some(FenceOf(rows[i].visible).value.0)
    ensures !again[j].heading && forall offset :: HeadingOf(again[j], offset).None?
    decreases j
  {
    if j == i + 1 {
      SameUpTo(ls, rows, contexts, again, after, i);
      LineAgain(ls, rows, contexts, again, after, i);
    } else {
      GainedFenceHides(ls, rows, contexts, again, after, i, j - 1);
      assert RowOf(rows[j - 1].visible, after[j - 1], again[j - 1], after[j]);
    }
    assert RowOf(rows[j].visible, after[j], again[j], after[j + 1]);
  }

  lemma {:induction false} SameHeadings(rows: seq<Row>, again: seq<Row>, offset: nat)
    requires SameLook(rows, again)
    ensures HeadingsFrom(again, offset) == HeadingsFrom(rows, offset) && Visible(again) == Visible(rows)
    decreases |rows|
  {
    if rows != [] {
      assert SameLook(rows[1..], again[1..]);
      SameHeadings(rows[1..], again[1..], offset + |rows[0].visible|);
    }
  }

  // ---- the lines of masked text ----

  /** A line ends in a line feed, unless it is the last one, and has no other. */
  predicate IsLine(s: string, last: bool) {
    s != "" && (forall k :: 0 <= k < |s| - 1 ==> s[k] != '\n') && (!last ==> s[|s| - 1] == '\n')
  }

  predicate AreLines(ls: seq<string>) { forall i :: 0 <= i < |ls| ==> IsLine(ls[i], i == |ls| - 1) }

  lemma {:induction false} LinesAreLines(text: string)
    ensures AreLines(Lines(text))
  {
    if text != "" {
      LinesAreLines(text[1..]);
    }
  }

  lemma {:induction false} LinesOfJoined(ls: seq<string>)
    requires AreLines(ls)
    ensures Lines(Join(ls)) == ls
    decreases |Join(ls)|
  {
    if ls != [] {
      var c, text := ls[0][0], Join(ls);
      if |ls[0]| == 1 {
        assert ls[0] == [c] && text[1..] == Join(ls[1..]);
        LinesOfJoined(ls[1..]);
      } else {
        var rest := [ls[0][1..]] + ls[1..];
        assert rest[1..] == ls[1..] && text[1..] == Join(rest);
        LinesOfJoined(rest);
        assert [c] + ls[0][1..] == ls[0];
      }
    }
  }

  lemma {:induction false} VisibleIsJoined(rows: seq<Row>)
    ensures Visible(rows) == Join(Visibles(rows))
  {
    if rows != [] {
      VisibleIsJoined(rows[1..]);
      assert Visibles(rows)[1..] == Visibles(rows[1..]);
    }
  }

  lemma VeiledLine(line: string, visible: string, last: bool)
    requires IsLine(line, last) && Veils(line, visible)
    ensures IsLine(visible, last)
  {
  }

  /** The lines of a stretch of the masked text are the masked lines. */
  lemma LinesOfVisible(ls: seq<string>, rows: seq<Row>)
    requires AreLines(ls) && |rows| == |ls| && forall i :: 0 <= i < |ls| ==> Veils(ls[i], rows[i].visible)
    ensures Lines(Visible(rows)) == Visibles(rows)
  {
    VisibleIsJoined(rows);
    var vs := Visibles(rows);
    forall i | 0 <= i < |vs| ensures IsLine(vs[i], i == |vs| - 1) { VeiledLine(ls[i], rows[i].visible, i == |vs| - 1); }
    LinesOfJoined(vs);
  }

  // ---- the sections of masked text ----

  lemma {:induction false} VisibleConcat(a: seq<Row>, b: seq<Row>)
    ensures Visible(a + b) == Visible(a) + Visible(b)
  {
    if a == [] {
      assert a + b == b && "" + Visible(b) == Visible(b);
    } else {
      VisibleConcat(a[1..], b);
      assert (a + b)[0] == a[0] && (a + b)[1..] == a[1..] + b;
      Assoc(a[0].visible, Visible(a[1..]), Visible(b));
    }
  }

  function Offset(rows: seq<Row>, k: nat): nat
    requires k <= |rows|
  {
    |Visible(rows[..k])|
  }

  lemma StretchOfVisible(rows: seq<Row>, a: nat, b: nat)
    requires a <= b <= |rows|
    ensures Offset(rows, a) <= Offset(rows, b) <= |Visible(rows)|
    ensures Visible(rows)[Offset(rows, a)..Offset(rows, b)] == Visible(rows[a..b])
    ensures (exists k :: a <= k < b && rows[k].visible != "") ==> Offset(rows, a) < Offset(rows, b)
  {
    var head, mid, tail := rows[..a], rows[a..b], rows[b..];
    VisibleConcat(head, mid);
    VisibleConcat(head + mid, tail);
    assert rows[..b] == head + mid && rows == head + mid + tail;
    if k :| a <= k < b && rows[k].visible != "" {
      VisibleConcat(mid[..k - a], mid[k - a..]);
      assert mid == mid[..k - a] + mid[k - a..];
    }
  }

  lemma OffsetTail(rows: seq<Row>, k: nat)
    requires 0 < k <= |rows|
    ensures Offset(rows, k) == |rows[0].visible| + Offset(rows[1..], k - 1)
  {
    assert rows[..k][1..] == rows[1..][..k - 1];
  }

  lemma {:induction false} HeadingStands(rows: seq<Row>, offset: nat, h: Heading) returns (j: nat)
    requires h in HeadingsFrom(rows, offset)
    ensures j < |rows| && rows[j].heading
    ensures h.start == offset + Offset(rows, j) && h.end == offset + Offset(rows, j + 1)
  {
    if HeadingOf(rows[0], offset) == Some(h) {
      j := 0;
      OffsetTail(rows, 1);
    } else {
      var i := HeadingStands(rows[1..], offset + |rows[0].visible|, h);
      j := i + 1;
      OffsetTail(rows, i + 1);
      OffsetTail(rows, i + 2);
    }
  }

  lemma OffsetsRise(rows: seq<Row>, a: nat, b: nat)
    requires a < b <= |rows| && forall k :: 0 <= k < |rows| ==> rows[k].visible != ""
    ensures Offset(rows, a) < Offset(rows, b)
  {
    StretchOfVisible(rows, a, b);
    assert rows[a].visible != "";
  }

  lemma NonemptyAhead(rows: seq<Row>, a: nat, b: nat)
    requires a <= |rows| && b <= |rows| && Offset(rows, a) <= Offset(rows, b)
    requires forall k :: 0 <= k < |rows| ==> rows[k].visible != ""
    ensures a <= b
  {
    if b < a {
      OffsetsRise(rows, b, a);
    }
  }

  /** Where a section's body begins: after a heading's line, outside any fence. */
  lemma BodyBegins(text: string, rows: seq<Row>, contexts: seq<Context>, level: nat, s: Section) returns (a: nat)
    requires AreRows(Lines(text), rows, contexts) && IsSection(s, HeadingsFrom(rows, 0), level, |text|)
    ensures a <= |rows| && contexts[a].fence.None? && s.start == Offset(rows, a)
  {
    var h :| h in HeadingsFrom(rows, 0) && h.level == level && h.title == s.title && h.end == s.start;
    var j := HeadingStands(rows, 0, h);
    assert RowOf(Lines(text)[j], contexts[j], rows[j], contexts[j + 1]);
    a := j + 1;
  }

  lemma BodyEnds(rows: seq<Row>, level: nat, s: Section, end: nat) returns (b: nat)
    requires IsSection(s, HeadingsFrom(rows, 0), level, end) && |Visible(rows)| == end
    ensures b <= |rows| && s.end == Offset(rows, b)
  {
    if s.end == end {
      b := |rows|;
      assert rows[..|rows|] == rows;
    } else {
      var g :| g in HeadingsFrom(rows, 0) && g.level <= level && g.start == s.end;
      b := HeadingStands(rows, 0, g);
    }
  }

  lemma SectionIsSection(text: string, rows: seq<Row>, level: nat, s: Section)
    requires RowsOf(text, rows) && s in SectionsOf(UpTo(HeadingsFrom(rows, 0), level), level, |text|)
    ensures IsSection(s, HeadingsFrom(rows, 0), level, |text|)
  {
    SectionsSplitTheText(text, level, rows);
  }

  /** A section's body is a stretch of whole lines, which begins outside any fence. */
  lemma SectionIsLines(text: string, rows: seq<Row>, contexts: seq<Context>, level: nat, s: Section)
    returns (a: nat, b: nat)
    requires AreRows(Lines(text), rows, contexts)
    requires s in SectionsOf(UpTo(HeadingsFrom(rows, 0), level), level, |text|)
    ensures a <= b <= |rows| && contexts[a].fence.None? && s.start == Offset(rows, a) && s.end == Offset(rows, b)
  {
    assert RowsOf(text, rows);
    SectionIsSection(text, rows, level, s);
    SectionsFit(text, rows, level);
    TextIsVeiled(text, rows);
    a := BodyBegins(text, rows, contexts, level, s);
    b := BodyEnds(rows, level, s, |text|);
    NonemptyAhead(rows, a, b);
  }

  lemma PartReads(ls: seq<string>, rows: seq<Row>, contexts: seq<Context>, a: nat, b: nat)
    requires Reads(ls, rows, contexts) && a <= b <= |ls|
    ensures Reads(ls[a..b], rows[a..b], contexts[a..b + 1])
  {
    var part, shown, along := ls[a..b], rows[a..b], contexts[a..b + 1];
    forall i | 0 <= i < |part| ensures RowOf(part[i], along[i], shown[i], along[i + 1]) {
      assert RowOf(ls[a + i], contexts[a + i], rows[a + i], contexts[a + i + 1]);
    }
  }

  lemma PartIsLines(text: string, rows: seq<Row>, contexts: seq<Context>, a: nat, b: nat)
    requires AreRows(Lines(text), rows, contexts) && a <= b <= |rows|
    ensures Lines(Visible(rows[a..b])) == Visibles(rows[a..b])
  {
    var ls := Lines(text);
    LinesAreLines(text);
    var part, shown := ls[a..b], rows[a..b];
    forall i | 0 <= i < |part| ensures IsLine(part[i], i == |part| - 1) && Veils(part[i], shown[i].visible) {
      assert IsLine(ls[a + i], a + i == |ls| - 1);
      RowsVeil(ls, rows, contexts, a + i);
    }
    LinesOfVisible(part, shown);
  }

  /**
   * A section's masked text is read again, as `release_notes` does with that of the release: it then has
   * the fences it had if and only if no line of it gains one by being masked, and if so its headings are
   * those the first reading found there.
   */
  lemma SectionReread(text: string, rows: seq<Row>, contexts: seq<Context>, level: nat, s: Section, again: seq<Row>,
                      after: seq<Context>)
    returns (a: nat, b: nat)
    requires AreRows(Lines(text), rows, contexts)
    requires s in SectionsOf(UpTo(HeadingsFrom(rows, 0), level), level, |text|)
    requires s.start <= s.end <= |Visible(rows)| && AreRows(Lines(Visible(rows)[s.start..s.end]), again, after)
    ensures a <= b <= |rows| && s.start == Offset(rows, a) && s.end == Offset(rows, b) && |after| == b - a + 1
    ensures SameFences(contexts[a..b + 1], after) <==>
        forall i :: a <= i < b ==> !GainsFence(Lines(text)[i], contexts[i])
    ensures SameFences(contexts[a..b + 1], after) ==>
              Visible(again) == Visible(rows)[s.start..s.end]
              && HeadingsFrom(again, s.start) == HeadingsFrom(rows[a..b], s.start)
  {
    a, b := SectionIsLines(text, rows, contexts, level, s);
    var ls := Lines(text);
    StretchOfVisible(rows, a, b);
    PartIsLines(text, rows, contexts, a, b);
    PartReads(ls, rows, contexts, a, b);
    RereadingIsSafe(ls[a..b], rows[a..b], contexts[a..b + 1], again, after);
    PartGains(ls, contexts, a, b);
    if SameFences(contexts[a..b + 1], after) {
      SameHeadings(rows[a..b], again, s.start);
    }
  }

  lemma PartGains(ls: seq<string>, contexts: seq<Context>, a: nat, b: nat)
    requires a <= b <= |ls| && |contexts| == |ls| + 1
    ensures (forall i :: 0 <= i < b - a ==> !GainsFence(ls[a..b][i], contexts[a..b + 1][i]))
       <==> (forall i :: a <= i < b ==> !GainsFence(ls[i], contexts[i]))
  {
    forall i | a <= i < b ensures ls[a..b][i - a] == ls[i] && contexts[a..b + 1][i - a] == contexts[i] {}
    if forall i :: 0 <= i < b - a ==> !GainsFence(ls[a..b][i], contexts[a..b + 1][i]) {
      forall i | a <= i < b ensures !GainsFence(ls[i], contexts[i]) {
        assert !GainsFence(ls[a..b][i - a], contexts[a..b + 1][i - a]);
      }
    }
  }

  // ---- two lines that gain a fence ----

  /** A comment that closes at the very start of a line, before backticks. */
  lemma ClosedCommentGainsFence(line: string)
    requires line == "-->```"
    ensures GainsFence(line, Context(None, true))
  {
    EndsOfWithin(line);
    TakenIsRead(line, 0, true);
    var ps := Taken(line, EndsOf(line), 0, true).0;
    var bare := Bare(line, true).value;
    assert bare == "   ```";
    FenceIsThere(bare, 3, 6);
    assert ShowsFence(line, true, ps);
  }

  /** Backticks that only a comment kept from being a fence. */
  lemma HiddenBacktickGainsFence(line: string)
    requires line == "```x<!--`-->"
    ensures GainsFence(line, Context(None, false))
  {
    EndsOfWithin(line);
    TakenIsRead(line, 0, false);
    var ps := Taken(line, EndsOf(line), 0, false).0;
    OneBacktickLater(line);
    FenceIsThere(line, 0, 3);
    var rest := line[3..];
    assert rest[5] == '`' && !IsIndented(line);
    HiddenBacktick(line, ps);
    assert ShowsFence(line, false, ps);
  }

  lemma OneBacktickLater(line: string)
    requires line == "```x<!--`-->"
    ensures |line| == 12 && line[0] == '`' && line[1] == '`' && line[2] == '`'
    ensures forall k :: 3 <= k < 12 ==> (line[k] == '`' <==> k == 8)
  {
  }

  lemma HiddenBacktick(line: string, ps: set<Piece>)
    requires line == "```x<!--`-->" && AreRead(line, 0, false, ps)
    ensures InComment(ps, 8)
  {
    assert OpensComment(line, 4) && !Escaped(line, 4);
    assert !NothingBegins(line, 0, false, 4);
    var p :| p in ps && Holds(p, 4);
    assert IsPiece(line, 0, false, p);
    if p.Code? {
      NoSpan(line, p.from, p.to);
    }
    assert p.from == 4;
    assert CloseFrom(line, 4) == CloseFrom(line, 5) == CloseFrom(line, 6) == CloseFrom(line, 7) == CloseFrom(line, 8)
        == CloseFrom(line, 9) == Some(12);
    assert Holds(p, 8);
  }

  lemma NoSpan(line: string, i: nat, e: nat)
    requires line == "```x<!--`-->" && i <= 4
    ensures !Closes(line, i, e)
  {
    OneBacktickLater(line);
    if Closes(line, i, e) {
      var j: nat, k: nat :| IsRun(line, i, j) && IsRun(line, k, e) && j <= k && e - k == j - i;
      RunsOfLine(line, i, j);
      RunsOfLine(line, k, e);
    }
  }

  lemma RunsOfLine(line: string, i: nat, j: nat)
    requires line == "```x<!--`-->" && IsRun(line, i, j)
    ensures (i == 0 && j == 3) || (i == 8 && j == 9)
  {
    OneBacktickLater(line);
    assert line[i] == '`' && line[3] != '`' && line[9] != '`';
  }
}
