// Comments of one Markdown line, blanked without moving a character; escapes and closed code spans are
// literal, and what stands in them opens no comment.
module MarkdownComments {
  import opened Wrappers
  import opened MarkdownSpans

  // ---- what a comment is ----

  /** `str.find("-->", i)`, moved past what it found. */
  function CloseFrom(s: string, i: nat): (r: Option<nat>)
    ensures r.Some? ==> i + 3 <= r.value <= |s| && s[r.value - 1] == '>'
    decreases |s| - i
  {
    if i + 3 > |s| then None
    else if s[i] == '-' && s[i + 1] == '-' && s[i + 2] == '>' then Some(i + 3)
    else CloseFrom(s, i + 1)
  }

  predicate OpensComment(s: string, i: nat) {
    i + 4 <= |s| && s[i] == '<' && s[i + 1] == '!' && s[i + 2] == '-' && s[i + 3] == '-'
  }

  /** How many backslashes stand right before an offset. */
  function Backslashes(s: string, k: nat): nat
    requires k <= |s|
  {
    if k == 0 || s[k - 1] != '\\' then 0 else 1 + Backslashes(s, k - 1)
  }

  predicate Escaped(s: string, k: nat)
    requires k <= |s|
  {
    Backslashes(s, k) % 2 == 1
  }

  /** A stretch of the line that is all comment, or all literal code with its backticks. */
  datatype Piece = Comment(from: nat, to: nat) | Code(from: nat, to: nat)

  predicate BeginsComment(s: string, i: nat, inside: bool, k: nat)
    requires k <= |s|
  {
    (inside && k == i) || (OpensComment(s, k) && !Escaped(s, k))
  }

  ghost predicate BeginsCode(s: string, i: nat, inside: bool, k: nat, e: nat)
    requires k <= |s|
  {
    !(inside && k == i) && Closes(s, k, e) && !Escaped(s, k)
  }

  /** A comment runs to its first close, or to the end of the line; a code span to its closing backticks. */
  ghost predicate IsPiece(s: string, i: nat, inside: bool, p: Piece) {
    && i <= p.from < p.to <= |s|
    && match p
       case Comment(a, b) =>
         BeginsComment(s, i, inside, a) && (CloseFrom(s, a) == Some(b) || (CloseFrom(s, a).None? && b == |s|))
       case Code(a, b) => BeginsCode(s, i, inside, a, b)
  }

  predicate Holds(p: Piece, k: nat) { p.from <= k < p.to }

  ghost predicate Within(ps: set<Piece>, k: nat) { exists p :: p in ps && Holds(p, k) }

  predicate InComment(ps: set<Piece>, k: nat) { exists p :: p in ps && p.Comment? && Holds(p, k) }

  ghost predicate NothingBegins(s: string, i: nat, inside: bool, k: nat)
    requires k <= |s|
  {
    !BeginsComment(s, i, inside, k) && forall e :: Closes(s, k, e) ==> !BeginsCode(s, i, inside, k, e)
  }

  /**
   * The comments and code spans of a line from offset `i` on, when that is `inside` a comment or not:
   * they do not overlap, and nothing else begins between them.
   */
  ghost predicate AreRead(s: string, i: nat, inside: bool, ps: set<Piece>) {
    && (forall p :: p in ps ==> IsPiece(s, i, inside, p))
    && (forall p, q :: p in ps && q in ps && p != q ==> p.to <= q.from || q.to <= p.from)
    && (forall k :: i <= k < |s| && !Within(ps, k) ==> NothingBegins(s, i, inside, k))
  }

  predicate Unclosed(s: string, p: Piece) { p.Comment? && CloseFrom(s, p.from).None? }

  /** The line ends inside a comment. */
  predicate IsLeftOpen(s: string, i: nat, inside: bool, ps: set<Piece>) {
    (inside && i >= |s|) || exists p :: p in ps && Unclosed(s, p)
  }

  // ---- there is only one way to read a line ----

  lemma ClosesOnce(s: string, k: nat, d: nat, e: nat)
    requires Closes(s, k, d) && Closes(s, k, e)
    ensures d == e
  {
    EndsAreClosings(s, k, d);
    EndsAreClosings(s, k, e);
  }

  lemma SamePiece(s: string, i: nat, inside: bool, p: Piece, q: Piece)
    requires IsPiece(s, i, inside, p) && IsPiece(s, i, inside, q) && p.from == q.from
    ensures p == q
  {
    if p.Code? && q.Code? {
      ClosesOnce(s, p.from, p.to, q.to);
    }
  }

  lemma SomethingBegins(s: string, i: nat, inside: bool, p: Piece)
    requires IsPiece(s, i, inside, p)
    ensures !NothingBegins(s, i, inside, p.from)
  {
  }

  lemma {:induction false} ReadInBoth(s: string, i: nat, inside: bool, ps: set<Piece>, qs: set<Piece>, p: Piece)
    requires AreRead(s, i, inside, ps) && AreRead(s, i, inside, qs) && p in ps
    ensures p in qs
    decreases p.from
  {
    SomethingBegins(s, i, inside, p);
    if Within(qs, p.from) {
      var q :| q in qs && Holds(q, p.from);
      if q.from < p.from {
        ReadInBoth(s, i, inside, qs, ps, q);
      } else {
        SamePiece(s, i, inside, p, q);
      }
    }
  }

  /** The comments and code spans of a line are determined, however they are found. */
  lemma ReadingIsUnique(s: string, i: nat, inside: bool, ps: set<Piece>, qs: set<Piece>)
    requires AreRead(s, i, inside, ps) && AreRead(s, i, inside, qs)
    ensures ps == qs
  {
    forall p ensures p in ps <==> p in qs {
      if p in ps { ReadInBoth(s, i, inside, ps, qs, p); }
      if p in qs { ReadInBoth(s, i, inside, qs, ps, p); }
    }
  }

  /**
   * What an opening is: one that is not masked is escaped or stands in a closed code span, and the
   * opening of what is masked neither is escaped nor stands in one.
   */
  lemma OpeningsAreRead(s: string, inside: bool, ps: set<Piece>, k: nat)
    requires AreRead(s, 0, inside, ps) && OpensComment(s, k)
    ensures InComment(ps, k) || Escaped(s, k)
        || exists c :: c in ps && c.Code? && Holds(c, k) && Closes(s, c.from, c.to)
    ensures forall p :: p in ps && p.Comment? && p.from == k ==>
              (inside && k == 0) || (!Escaped(s, k) && forall c :: c in ps && c.Code? ==> !Holds(c, k))
  {
    if !Within(ps, k) {
      assert NothingBegins(s, 0, inside, k);
    } else {
      var p :| p in ps && Holds(p, k);
      assert IsPiece(s, 0, inside, p);
    }
  }

  // ---- reading from the left ----

  ghost predicate EndsWithin(s: string, ends: map<nat, nat>) { forall i :: i in ends ==> i < ends[i] <= |s| }

  lemma EndsOfWithin(line: string)
    ensures EndsWithin(line, EndsOf(line))
  {
    forall i | i in EndsOf(line) ensures i < EndsOf(line)[i] <= |line| {
      EndsAreClosings(line, i, EndsOf(line)[i]);
    }
  }

  /** Where a comment that stands at `i`, or begins there, ends. */
  function StopFrom(s: string, i: nat): (stop: nat)
    ensures i < |s| ==> i < stop <= |s|
  {
    if CloseFrom(s, i).Some? then CloseFrom(s, i).value else |s|
  }

  /** What one scan from the left takes, from an offset on, and whether the line ends inside a comment. */
  ghost function Taken(s: string, ends: map<nat, nat>, i: nat, inside: bool): (set<Piece>, bool)
    requires EndsWithin(s, ends)
    decreases if i < |s| then |s| - i else 0, if inside then 0 else 1
  {
    if i >= |s| then ({}, inside)
    else if inside then
      var (ps, more) := Taken(s, ends, StopFrom(s, i), CloseFrom(s, i).None?);
      ({Comment(i, StopFrom(s, i))} + ps, more)
    else if s[i] == '\\' then Taken(s, ends, i + 2, false)
    else if i in ends then
      var (ps, more) := Taken(s, ends, ends[i], false);
      ({Code(i, ends[i])} + ps, more)
    else Taken(s, ends, if OpensComment(s, i) then i else i + 1, OpensComment(s, i))
  }

  /** Nothing begins between two offsets, so what is read from the second is all there is. */
  lemma SkipsNothing(s: string, i: nat, j: nat, ps: set<Piece>)
    requires i <= j && AreRead(s, j, false, ps)
    requires forall k :: i <= k < j && k < |s| ==> NothingBegins(s, i, false, k)
    ensures AreRead(s, i, false, ps)
  {
    forall k | i <= k < |s| && !Within(ps, k) ensures NothingBegins(s, i, false, k) {
      if k >= j { assert NothingBegins(s, j, false, k); }
    }
  }

  lemma WithinMore(p: Piece, ps: set<Piece>, k: nat)
    ensures Within({p} + ps, k) <==> Holds(p, k) || Within(ps, k)
  {
    if Holds(p, k) {
      assert p in {p} + ps;
    }
    if Within(ps, k) {
      var q :| q in ps && Holds(q, k);
      assert q in {p} + ps;
    }
  }

  /** A piece, and what is read after it. */
  lemma TakesPiece(s: string, i: nat, inside: bool, p: Piece, ps: set<Piece>)
    requires p.from == i && IsPiece(s, i, inside, p) && AreRead(s, p.to, false, ps)
    ensures AreRead(s, i, inside, {p} + ps)
  {
    var all := {p} + ps;
    forall q | q in ps ensures IsPiece(s, i, inside, q) && q.from >= p.to {
      assert IsPiece(s, p.to, false, q);
    }
    forall k | i <= k < |s| && !Within(all, k) ensures NothingBegins(s, i, inside, k) {
      WithinMore(p, ps, k);
      assert NothingBegins(s, p.to, false, k);
    }
  }

  /** Reading at an opening, and reading from there inside the comment, are one. */
  lemma OpensHere(s: string, i: nat, ps: set<Piece>)
    requires OpensComment(s, i) && !Escaped(s, i) && AreRead(s, i, true, ps)
    ensures AreRead(s, i, false, ps)
  {
    forall k | i <= k < |s| && !Within(ps, k) ensures NothingBegins(s, i, false, k) {
      assert NothingBegins(s, i, true, k);
    }
    forall p | p in ps ensures IsPiece(s, i, false, p) {
      assert IsPiece(s, i, true, p);
    }
  }

  lemma EscapeBeginsNothing(s: string, i: nat)
    requires i < |s| && s[i] == '\\' && !Escaped(s, i)
    ensures forall k :: i <= k < i + 2 && k < |s| ==> NothingBegins(s, i, false, k)
    ensures i + 2 <= |s| ==> !Escaped(s, i + 2)
  {
    assert NothingBegins(s, i, false, i);
    if i + 1 < |s| {
      assert Escaped(s, i + 1);
      assert NothingBegins(s, i, false, i + 1);
    }
  }

  lemma {:induction false} TakenIsRead(s: string, i: nat, inside: bool)
    requires EndsWithin(s, EndsOf(s)) && (i <= |s| ==> !Escaped(s, i))
    ensures AreRead(s, i, inside, Taken(s, EndsOf(s), i, inside).0)
    decreases if i < |s| then |s| - i else 0, if inside then 0 else 1
  {
    var ends := EndsOf(s);
    if i < |s| {
      if inside {
        var stop := StopFrom(s, i);
        if CloseFrom(s, i).Some? {
          TakenIsRead(s, stop, false);
        }
        TakesPiece(s, i, true, Comment(i, stop), Taken(s, ends, stop, CloseFrom(s, i).None?).0);
      } else if s[i] == '\\' {
        EscapeBeginsNothing(s, i);
        TakenIsRead(s, i + 2, false);
        SkipsNothing(s, i, i + 2, Taken(s, ends, i + 2, false).0);
      } else if i in ends {
        EndsAreClosings(s, i, ends[i]);
        TakenIsRead(s, ends[i], false);
        TakesPiece(s, i, false, Code(i, ends[i]), Taken(s, ends, ends[i], false).0);
      } else if OpensComment(s, i) {
        TakenIsRead(s, i, true);
        OpensHere(s, i, Taken(s, ends, i, true).0);
      } else {
        TakenIsRead(s, i + 1, false);
        forall e | Closes(s, i, e) ensures false { EndsAreClosings(s, i, e); }
        SkipsNothing(s, i, i + 1, Taken(s, ends, i + 1, false).0);
      }
    }
  }

  lemma {:induction false} TakenIsLeftOpen(s: string, ends: map<nat, nat>, i: nat, inside: bool)
    requires EndsWithin(s, ends)
    ensures Taken(s, ends, i, inside).1 <==> IsLeftOpen(s, i, inside, Taken(s, ends, i, inside).0)
    decreases if i < |s| then |s| - i else 0, if inside then 0 else 1
  {
    if i < |s| {
      if inside {
        var stop, more := StopFrom(s, i), CloseFrom(s, i).None?;
        TakenIsLeftOpen(s, ends, stop, more);
        UnclosedMore(s, Comment(i, stop), Taken(s, ends, stop, more).0);
      } else if s[i] == '\\' {
        TakenIsLeftOpen(s, ends, i + 2, false);
      } else if i in ends {
        TakenIsLeftOpen(s, ends, ends[i], false);
        UnclosedMore(s, Code(i, ends[i]), Taken(s, ends, ends[i], false).0);
      } else {
        TakenIsLeftOpen(s, ends, if OpensComment(s, i) then i else i + 1, OpensComment(s, i));
      }
    }
  }

  lemma UnclosedMore(s: string, p: Piece, ps: set<Piece>)
    ensures (exists q :: q in {p} + ps && Unclosed(s, q)) <==> Unclosed(s, p) || exists q :: q in ps && Unclosed(s, q)
  {
    if Unclosed(s, p) {
      assert p in {p} + ps;
    }
    if q :| q in ps && Unclosed(s, q) {
      assert q in {p} + ps;
    }
  }

  // ---- masking ----

  predicate IsNewline(c: char) { c == '\r' || c == '\n' }

  /** The same text with blanks where comments are, line ends kept. */
  ghost predicate Masks(s: string, ps: set<Piece>, visible: string) {
    |visible| == |s|
    && forall k {:trigger visible[k]} :: 0 <= k < |s| ==>
         visible[k] == if InComment(ps, k) && !IsNewline(s[k]) then ' ' else s[k]
  }

  function Blank(s: string, from: nat, to: nat): string {
    seq(|s|, k requires 0 <= k < |s| => if from <= k < to && !IsNewline(s[k]) then ' ' else s[k])
  }

  lemma MasksMore(s: string, ps: set<Piece>, visible: string, p: Piece)
    requires Masks(s, ps, visible)
    ensures Masks(s, ps + {p}, if p.Comment? then Blank(visible, p.from, p.to) else visible)
  {
    forall k: nat ensures InComment(ps + {p}, k) <==> InComment(ps, k) || (p.Comment? && Holds(p, k)) {
      if p.Comment? && Holds(p, k) {
        assert p in ps + {p};
      }
      if q :| q in ps && q.Comment? && Holds(q, k) {
        assert q in ps + {p};
      }
    }
  }

  /** The line with its comments blanked, and whether it ends inside one. */
  ghost predicate Shows(line: string, inside: bool, visible: string, more: bool) {
    exists ps :: AreRead(line, 0, inside, ps) && Masks(line, ps, visible) && more == IsLeftOpen(line, 0, inside, ps)
  }

  /** Blanks what stands in comments and passes over escapes and literal code spans. */
  method CommentLine(line: string, comment: bool) returns (visible: string, inside: bool)
    ensures Shows(line, comment, visible, inside)
  {
    visible, inside := line, comment;
    var codeEnds := CodeSpanEnds(line);
    EndsOfWithin(line);
    var position := 0;
    ghost var done: set<Piece> := {};
    ghost var whole := Taken(line, codeEnds, 0, comment);
    while position < |line|
      invariant Masks(line, done, visible)
      invariant whole.0 == done + Taken(line, codeEnds, position, inside).0
      invariant whole.1 == Taken(line, codeEnds, position, inside).1
      decreases if position < |line| then |line| - position else 0, !inside
    {
      if inside {
        var end := CloseFrom(line, position);
        var stop := if end.None? then |line| else end.value;
        MasksMore(line, done, visible, Comment(position, stop));
        visible, done := Blank(visible, position, stop), done + {Comment(position, stop)};
        position := stop;
        inside := end.None?;
      } else if line[position] == '\\' {
        position := position + 2;
      } else if position in codeEnds {
        MasksMore(line, done, visible, Code(position, codeEnds[position]));
        done := done + {Code(position, codeEnds[position])};
        position := codeEnds[position];
      } else if OpensComment(line, position) {
        inside := true;
      } else {
        position := position + 1;
      }
    }
    TakenIsRead(line, 0, comment);
    TakenIsLeftOpen(line, codeEnds, 0, comment);
    assert done == whole.0;
  }

  /** A line shows one thing only. */
  lemma ShowsOne(line: string, inside: bool, visible: string, more: bool, visible': string, more': bool)
    requires Shows(line, inside, visible, more) && Shows(line, inside, visible', more')
    ensures visible == visible' && more == more'
  {
    var ps :| AreRead(line, 0, inside, ps) && Masks(line, ps, visible) && more == IsLeftOpen(line, 0, inside, ps);
    var qs :| AreRead(line, 0, inside, qs) && Masks(line, qs, visible') && more' == IsLeftOpen(line, 0, inside, qs);
    ReadingIsUnique(line, 0, inside, ps, qs);
  }

  // ---- masking again changes nothing ----

  /** Where a comment's stretch lies: from its opening or the start of the line to its close or the end. */
  lemma CommentEnds(s: string, inside: bool, ps: set<Piece>, p: Piece)
    requires AreRead(s, 0, inside, ps) && p in ps && p.Comment?
    ensures p.from < p.to <= |s| && (OpensComment(s, p.from) || (inside && p.from == 0))
    ensures p.to == |s| || s[p.to - 1] == '>'
  {
    assert IsPiece(s, 0, inside, p);
  }

  /** A character that cannot end a comment, with none after it, is in one with the character before it. */
  lemma EdgeOfComment(s: string, inside: bool, ps: set<Piece>, k: nat)
    requires AreRead(s, 0, inside, ps) && 0 < k < |s|
    ensures InComment(ps, k) && s[k] != '<' ==> InComment(ps, k - 1)
    ensures InComment(ps, k - 1) && s[k - 1] != '>' ==> InComment(ps, k)
  {
    if p :| p in ps && p.Comment? && Holds(p, k) {
      CommentEnds(s, inside, ps, p);
    }
    if p :| p in ps && p.Comment? && Holds(p, k - 1) {
      CommentEnds(s, inside, ps, p);
      assert p.to > k || s[k - 1] == '>';
    }
  }

  lemma {:induction false} RunOutside(s: string, inside: bool, ps: set<Piece>, i: nat, j: nat, k: nat)
    requires AreRead(s, 0, inside, ps) && IsRun(s, i, j) && i <= k < j && !InComment(ps, i)
    ensures !InComment(ps, k)
    decreases k
  {
    if k > i {
      RunOutside(s, inside, ps, i, j, k - 1);
      EdgeOfComment(s, inside, ps, k);
    }
  }

  /** What is left of the backtick runs are those outside comments. */
  lemma RunsShown(s: string, inside: bool, ps: set<Piece>, visible: string, i: nat, j: nat)
    requires AreRead(s, 0, inside, ps) && Masks(s, ps, visible)
    ensures IsRun(visible, i, j) <==> IsRun(s, i, j) && !InComment(ps, i)
  {
    if IsRun(s, i, j) && !InComment(ps, i) {
      forall k | i <= k < j ensures visible[k] == '`' { RunOutside(s, inside, ps, i, j, k); }
    }
    if IsRun(visible, i, j) {
      forall k | i <= k < j ensures s[k] == '`' && !InComment(ps, k) { assert visible[k] == '`'; }
      if i > 0 { EdgeOfComment(s, inside, ps, i); }
      if j < |s| { EdgeOfComment(s, inside, ps, j); }
    }
  }

  /** A run with another of its length after it is closed by some run. */
  lemma {:induction false} SomeRunCloses(s: string, i: nat, j: nat, k: nat, e: nat)
    requires IsRun(s, i, j) && IsRun(s, k, e) && j <= k && e - k == j - i
    ensures exists d :: Closes(s, i, d)
    decreases k
  {
    if a: nat, b: nat :| j <= a < k && IsRun(s, a, b) && b - a == j - i {
      SomeRunCloses(s, i, j, a, b);
    } else {
      assert Closes(s, i, e);
    }
  }

  lemma {:induction false} BackslashesShown(s: string, inside: bool, ps: set<Piece>, visible: string, k: nat)
    requires AreRead(s, 0, inside, ps) && Masks(s, ps, visible) && k < |s| && !InComment(ps, k)
    ensures Backslashes(visible, k) == Backslashes(s, k)
  {
    if k > 0 && s[k - 1] == '\\' {
      EdgeOfComment(s, inside, ps, k);
      BackslashesShown(s, inside, ps, visible, k - 1);
    }
  }

  /** A code span of the line is one of the masked line. */
  lemma CodeShown(s: string, inside: bool, ps: set<Piece>, visible: string, c: Piece)
    requires AreRead(s, 0, inside, ps) && Masks(s, ps, visible) && c in ps && c.Code?
    ensures IsPiece(visible, 0, false, c)
  {
    var i, e := c.from, c.to;
    assert IsPiece(s, 0, inside, c);
    var j: nat, k: nat :| IsRun(s, i, j) && IsRun(s, k, e) && j <= k && e - k == j - i
      && forall a: nat, b: nat :: j <= a < k && IsRun(s, a, b) ==> b - a != j - i;
    assert Holds(c, i) && Holds(c, k);
    assert !InComment(ps, i) && !InComment(ps, k);
    RunsShown(s, inside, ps, visible, i, j);
    RunsShown(s, inside, ps, visible, k, e);
    forall a: nat, b: nat | j <= a < k && IsRun(visible, a, b) ensures b - a != j - i {
      RunsShown(s, inside, ps, visible, a, b);
    }
    BackslashesShown(s, inside, ps, visible, i);
  }

  lemma OpeningShown(s: string, ps: set<Piece>, visible: string, k: nat)
    requires Masks(s, ps, visible) && OpensComment(visible, k)
    ensures OpensComment(s, k) && !InComment(ps, k)
  {
    assert visible[k] == s[k] && visible[k + 1] == s[k + 1] && visible[k + 2] == s[k + 2] && visible[k + 3] == s[k + 3];
  }

  lemma ClosingShown(s: string, inside: bool, ps: set<Piece>, visible: string, k: nat, e: nat)
    requires AreRead(s, 0, inside, ps) && Masks(s, ps, visible) && Closes(visible, k, e)
    ensures !InComment(ps, k) && k < |s| && exists d :: Closes(s, k, d)
  {
    var j: nat, m: nat :| IsRun(visible, k, j) && IsRun(visible, m, e) && j <= m && e - m == j - k
      && forall a: nat, b: nat :: j <= a < m && IsRun(visible, a, b) ==> b - a != j - k;
    RunsShown(s, inside, ps, visible, k, j);
    RunsShown(s, inside, ps, visible, m, e);
    SomeRunCloses(s, k, j, m, e);
  }

  /** Nothing begins in the masked line where nothing began in the line. */
  lemma NothingShown(s: string, inside: bool, ps: set<Piece>, visible: string, k: nat)
    requires AreRead(s, 0, inside, ps) && Masks(s, ps, visible) && k < |s|
    requires InComment(ps, k) || NothingBegins(s, 0, inside, k)
    ensures NothingBegins(visible, 0, false, k)
  {
    if !InComment(ps, k) {
      BackslashesShown(s, inside, ps, visible, k);
    }
    if OpensComment(visible, k) {
      OpeningShown(s, ps, visible, k);
    }
    forall e | Closes(visible, k, e) ensures !BeginsCode(visible, 0, false, k, e) {
      ClosingShown(s, inside, ps, visible, k, e);
      var d :| Closes(s, k, d);
      assert !BeginsCode(s, 0, inside, k, d);
    }
  }

  /** What is read in a masked line is its code spans. */
  lemma MaskedIsClean(s: string, inside: bool, ps: set<Piece>, visible: string)
    requires AreRead(s, 0, inside, ps) && Masks(s, ps, visible)
    ensures AreRead(visible, 0, false, set c | c in ps && c.Code?)
  {
    var cs := set c | c in ps && c.Code?;
    forall c | c in cs ensures IsPiece(visible, 0, false, c) { CodeShown(s, inside, ps, visible, c); }
    forall k | 0 <= k < |s| && !Within(cs, k) ensures NothingBegins(visible, 0, false, k) {
      if Within(ps, k) {
        var p :| p in ps && Holds(p, k);
        assert p.Comment? by { assert p.Code? ==> p in cs; }
      }
      NothingShown(s, inside, ps, visible, k);
    }
  }

  /** Masking a masked line again changes nothing, and it ends in no comment. */
  lemma MaskingIsIdempotent(line: string, inside: bool, visible: string, more: bool)
    requires Shows(line, inside, visible, more)
    ensures Shows(visible, false, visible, false)
  {
    var ps :| AreRead(line, 0, inside, ps) && Masks(line, ps, visible) && more == IsLeftOpen(line, 0, inside, ps);
    MaskedIsClean(line, inside, ps, visible);
  }

  // ---- the marks, character by character ----

  predicate ArrowAt(s: string, k: nat) { k + 3 <= |s| && s[k..k + 3] == "-->" }

  lemma MarksAreSpelt(s: string, k: nat)
    ensures OpensComment(s, k) <==> k + 4 <= |s| && s[k..k + 4] == "<!--"
    ensures ArrowAt(s, k) <==> k + 3 <= |s| && s[k] == '-' && s[k + 1] == '-' && s[k + 2] == '>'
  {
    if k + 4 <= |s| { assert s[k..k + 4] == [s[k], s[k + 1], s[k + 2], s[k + 3]]; }
    if k + 3 <= |s| { assert s[k..k + 3] == [s[k], s[k + 1], s[k + 2]]; }
  }

  /** A comment ends with the first arrow, its own opening's hyphens included. */
  lemma {:induction false} ClosesAtFirst(s: string, i: nat, end: nat)
    ensures CloseFrom(s, i) == Some(end) <==>
              end >= i + 3 && ArrowAt(s, end - 3) && forall k :: i <= k < end - 3 ==> !ArrowAt(s, k)
    decreases |s| - i
  {
    MarksAreSpelt(s, i);
    if i + 3 <= |s| && !ArrowAt(s, i) {
      ClosesAtFirst(s, i + 1, end);
    }
  }

  /** Escaped by an odd number of backslashes right before it. */
  ghost predicate IsOddRun(s: string, k: nat, n: nat)
    requires k <= |s|
  {
    n <= k && n % 2 == 1 && (forall j :: k - n <= j < k ==> s[j] == '\\') && (n < k ==> s[k - n - 1] != '\\')
  }

  lemma {:induction false} CountsBackslashes(s: string, k: nat)
    requires k <= |s|
    ensures var n := Backslashes(s, k);
            n <= k && (forall j :: k - n <= j < k ==> s[j] == '\\') && (n < k ==> s[k - n - 1] != '\\')
  {
    if k > 0 && s[k - 1] == '\\' {
      CountsBackslashes(s, k - 1);
    }
  }

  lemma {:induction false} RunIsCounted(s: string, k: nat, n: nat)
    requires n <= k <= |s| && (forall j :: k - n <= j < k ==> s[j] == '\\') && (n < k ==> s[k - n - 1] != '\\')
    ensures Backslashes(s, k) == n
  {
    if n > 0 {
      RunIsCounted(s, k - 1, n - 1);
    }
  }

  lemma EscapedIsOdd(s: string, k: nat)
    requires k <= |s|
    ensures Escaped(s, k) <==> exists n: nat :: IsOddRun(s, k, n)
  {
    CountsBackslashes(s, k);
    if Escaped(s, k) { assert IsOddRun(s, k, Backslashes(s, k)); }
    if n: nat :| IsOddRun(s, k, n) { RunIsCounted(s, k, n); }
  }

  /** Line ends always stay, and everything else stays or is blanked. */
  lemma LineEndsStay(line: string, inside: bool, visible: string, more: bool, k: nat)
    requires Shows(line, inside, visible, more) && k < |line|
    ensures |visible| == |line| && visible[k] in {line[k], ' '}
    ensures line[k] in {'\r', '\n'} ==> visible[k] == line[k]
  {
    var ps :| AreRead(line, 0, inside, ps) && Masks(line, ps, visible) && more == IsLeftOpen(line, 0, inside, ps);
    assert visible[k] == if InComment(ps, k) && !IsNewline(line[k]) then ' ' else line[k];
  }
}
