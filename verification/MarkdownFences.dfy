// Code fences in release notes, character by character: where they start, where they end, and which
// lines may be headings.
module MarkdownFences {
  import opened Wrappers
  import opened MarkdownComments
  import opened MarkdownSections

  /** `k` spaces, at most three, and then `n` markers. */
  ghost predicate MarkedAt(line: string, k: nat, n: nat, marker: char) {
    && k <= 3 && k + n <= |line|
    && (forall x :: 0 <= x < k ==> line[x] == ' ') && (forall x :: k <= x < k + n ==> line[x] == marker)
  }

  /** Three or more of a marker, all there are, and after backticks no other backtick. */
  ghost predicate StartsAt(line: string, k: nat, marker: char, n: nat) {
    && marker in {'`', '~'} && n >= 3 && MarkedAt(line, k, n, marker)
    && (k + n < |line| ==> line[k + n] != marker)
    && (marker == '`' ==> forall x :: k + n <= x < |line| ==> line[x] != '`')
  }

  ghost predicate StartsFence(line: string, marker: char, n: nat) { exists k: nat :: StartsAt(line, k, marker, n) }

  /** At least as many of the same marker, and then white space only. */
  ghost predicate EndsAt(line: string, k: nat, m: nat, marker: char, n: nat) {
    m >= n && MarkedAt(line, k, m, marker) && forall x :: k + m <= x < |line| ==> line[x] in {' ', '\t', '\r', '\n'}
  }

  ghost predicate EndsFence(line: string, marker: char, n: nat) {
    exists k: nat, m: nat :: EndsAt(line, k, m, marker, n)
  }

  /** What a fence line is, by its counts. */
  lemma FenceByCounts(line: string, k: nat, n: nat, marker: char)
    requires k + n <= |line| && Leading(line, ' ') == k && Leading(line[k..], marker) == n && n >= 1
    ensures FenceOf(line) == if k <= 3 && marker in {'`', '~'} && n >= 3 then Some((Fence(marker, n), line[k + n..]))
        else None
  {
    assert line[k..][n..] == line[k + n..];
    LeadingCounts(line[k..], marker);
    assert line[k..][0] == marker;
  }

  lemma MarkedCounts(line: string, k: nat, n: nat, marker: char)
    requires MarkedAt(line, k, n, marker) && n >= 1 && marker != ' ' && (k + n < |line| ==> line[k + n] != marker)
    ensures Leading(line, ' ') == k && Leading(line[k..], marker) == n
  {
    LeadingIs(line, ' ', k);
    LeadingIs(line[k..], marker, n);
  }

  /** The counts of a fence line say where its markers stand. */
  lemma FenceIsMarked(line: string)
    requires FenceOf(line).Some?
    ensures var (fence, rest) := FenceOf(line).value; var k := Leading(line, ' ');
            && fence.marker in {'`', '~'} && fence.length >= 3 && MarkedAt(line, k, fence.length, fence.marker)
            && rest == line[k + fence.length..] && (rest != "" ==> rest[0] != fence.marker)
  {
    var k := Leading(line, ' ');
    LeadingCounts(line, ' ');
    LeadingCounts(line[k..], line[k]);
    var n := Leading(line[k..], line[k]);
    assert line[k..][n..] == line[k + n..];
    forall x | k <= x < k + n ensures line[x] == line[k] { assert line[x] == line[k..][x - k]; }
  }

  /** A line opens a fence exactly when it starts one, and then that one. */
  lemma OpensIffStarts(line: string, marker: char, n: nat)
    ensures StartsFence(line, marker, n) <==>
              OpensFence(FenceOf(line)) && FenceOf(line).value.0 == Fence(marker, n)
  {
    if k: nat :| StartsAt(line, k, marker, n) {
      MarkedCounts(line, k, n, marker);
      FenceByCounts(line, k, n, marker);
    }
    if OpensFence(FenceOf(line)) && FenceOf(line).value.0 == Fence(marker, n) {
      FenceIsMarked(line);
      var k, rest := Leading(line, ' '), FenceOf(line).value.1;
      forall x | k + n <= x < |line| && marker == '`' ensures line[x] != '`' { assert line[x] == rest[x - k - n]; }
      assert StartsAt(line, k, marker, n);
    }
  }

  /** A line closes a fence exactly when it ends it. */
  lemma ClosesIffEnds(line: string, marker: char, n: nat)
    requires marker in {'`', '~'} && n >= 3
    ensures EndsFence(line, marker, n) <==> ClosesFence(FenceOf(line), Fence(marker, n))
  {
    if k: nat, m: nat :| EndsAt(line, k, m, marker, n) {
      MarkedCounts(line, k, m, marker);
      FenceByCounts(line, k, m, marker);
      assert FenceOf(line).value.1 == line[k + m..];
    }
    if ClosesFence(FenceOf(line), Fence(marker, n)) {
      FenceIsMarked(line);
      var k, m, rest := Leading(line, ' '), FenceOf(line).value.0.length, FenceOf(line).value.1;
      forall x | k + m <= x < |line| ensures line[x] in {' ', '\t', '\r', '\n'} { assert line[x] == rest[x - k - m]; }
      assert EndsAt(line, k, m, marker, n);
    }
  }

  /** Every fence there can be was started by some line. */
  lemma {:induction false} FencesAreStarted(ls: seq<string>, rows: seq<Row>, contexts: seq<Context>, i: nat)
    requires AreRows(ls, rows, contexts) && i <= |ls| && contexts[i].fence.Some?
    ensures contexts[i].fence.value.marker in {'`', '~'} && contexts[i].fence.value.length >= 3 && !contexts[i].comment
  {
    assert i > 0 && RowOf(ls[i - 1], contexts[i - 1], rows[i - 1], contexts[i]);
    if contexts[i - 1].fence.Some? {
      FencesAreStarted(ls, rows, contexts, i - 1);
    } else {
      FenceIsMarked(ls[i - 1]);
    }
  }

  /** Outside fences and comments a line starts a fence exactly when it has the look of one. */
  lemma FencesStart(ls: seq<string>, rows: seq<Row>, contexts: seq<Context>, i: nat, marker: char, n: nat)
    requires AreRows(ls, rows, contexts) && i < |ls| && contexts[i].fence.None?
    ensures contexts[i + 1].fence == Some(Fence(marker, n)) <==> !contexts[i].comment && StartsFence(ls[i], marker, n)
  {
    assert RowOf(ls[i], contexts[i], rows[i], contexts[i + 1]);
    OpensIffStarts(ls[i], marker, n);
  }

  /** Inside one, it ends with the line exactly when that has the look of its end, and goes on unchanged otherwise. */
  lemma FencesEnd(ls: seq<string>, rows: seq<Row>, contexts: seq<Context>, i: nat)
    requires AreRows(ls, rows, contexts) && i < |ls| && contexts[i].fence.Some?
    ensures var fence := contexts[i].fence.value;
            contexts[i + 1] == if EndsFence(ls[i], fence.marker, fence.length) then Context(None, false)
              else contexts[i]
    ensures rows[i] == Row(ls[i], false, contexts[i + 1].fence.Some?)
  {
    assert RowOf(ls[i], contexts[i], rows[i], contexts[i + 1]);
    FencesAreStarted(ls, rows, contexts, i);
    ClosesIffEnds(ls[i], contexts[i].fence.value.marker, contexts[i].fence.value.length);
  }

  /**
   * A fence runs from the line that starts it to the first that ends it, or to the end of the text. None of its
   * lines is taken for a heading, its first and last included, and none is masked.
   */
  lemma {:induction false} FenceRuns(ls: seq<string>, rows: seq<Row>, contexts: seq<Context>, i: nat, marker: char,
                                     n: nat, j: nat)
    requires AreRows(ls, rows, contexts) && i < j <= |ls| && contexts[i] == Context(None, false)
    requires StartsFence(ls[i], marker, n) && forall k :: i < k < j ==> !EndsFence(ls[k], marker, n)
    ensures contexts[j] == Context(Some(Fence(marker, n)), false)
    ensures forall k :: i <= k < j ==> !rows[k].heading && rows[k].visible == ls[k]
    ensures j < |ls| ==> !rows[j].heading
                         && contexts[j + 1] == if EndsFence(ls[j], marker, n) then Context(None, false) else contexts[j]
    decreases j
  {
    if j == i + 1 {
      assert RowOf(ls[i], contexts[i], rows[i], contexts[i + 1]);
      OpensIffStarts(ls[i], marker, n);
    } else {
      FenceRuns(ls, rows, contexts, i, marker, n, j - 1);
      FencesEnd(ls, rows, contexts, j - 1);
    }
    if j < |ls| {
      FencesEnd(ls, rows, contexts, j);
    }
  }

  /** Which lines may be headings: those outside fences that start none and are not indented, and those in comments. */
  lemma EligibleLines(ls: seq<string>, rows: seq<Row>, contexts: seq<Context>, i: nat)
    requires AreRows(ls, rows, contexts) && i < |ls|
    ensures rows[i].heading <==>
              contexts[i].fence.None?
              && (contexts[i].comment
                  || !(IsCode(ls[i]) || exists marker, n :: StartsFence(ls[i], marker, n)))
    ensures rows[i].heading ==> rows[i].guidance && contexts[i + 1].fence.None?
    ensures contexts[i].fence.None? && !rows[i].heading && !(exists marker, n :: StartsFence(ls[i], marker, n)) ==>
              rows[i] == Row(ls[i], false, true) && contexts[i + 1] == contexts[i]
    ensures contexts[i].fence.None? && !contexts[i].comment && (exists marker, n :: StartsFence(ls[i], marker, n)) ==>
              rows[i] == Row(ls[i], false, false) && !contexts[i + 1].comment
  {
    assert RowOf(ls[i], contexts[i], rows[i], contexts[i + 1]);
    IndentedIsCode(ls[i]);
    forall marker, n ensures StartsFence(ls[i], marker, n) <==>
                               OpensFence(FenceOf(ls[i])) && FenceOf(ls[i]).value.0 == Fence(marker, n)
    {
      OpensIffStarts(ls[i], marker, n);
    }
    if OpensFence(FenceOf(ls[i])) {
      var fence := FenceOf(ls[i]).value.0;
      assert StartsFence(ls[i], fence.marker, fence.length);
    }
  }

  /** Four spaces or a tab in front. */
  predicate IsCode(line: string) {
    line != "" && (line[0] == '\t' || (|line| >= 4 && line[0] == line[1] == line[2] == line[3] == ' '))
  }

  lemma IndentedIsCode(line: string)
    ensures IsIndented(line) <==> IsCode(line)
  {
    if |line| >= 4 { assert line[..4] == [line[0], line[1], line[2], line[3]]; }
    if line != "" { assert line[..1] == [line[0]]; }
  }

  /** A line goes to its line feed, or to the end of the text. */
  lemma {:induction false} LinesEndAtFeeds(text: string, i: nat)
    requires i < |Lines(text)|
    ensures var line := Lines(text)[i];
            && (forall k :: 0 <= k < |line| - 1 ==> line[k] != '\n')
            && (i < |Lines(text)| - 1 ==> line[|line| - 1] == '\n')
  {
    if text != "" {
      var ls := Lines(text[1..]);
      if ls != [] {
        if text[0] == '\n' {
          if i > 0 { LinesEndAtFeeds(text[1..], i - 1); }
        } else {
          LinesEndAtFeeds(text[1..], i);
        }
      }
    }
  }
}
