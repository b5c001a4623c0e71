// Inline code spans and comments of one Markdown line, masked without moving any character.
module MarkdownSpans {
  import opened Wrappers

  // ---- backtick runs ----

  /** A run of backticks that cannot be made longer. */
  ghost predicate IsRun(s: string, i: nat, j: nat) {
    && i < j <= |s| && (forall k :: i <= k < j ==> s[k] == '`')
    && (i == 0 || s[i - 1] != '`') && (j == |s| || s[j] != '`')
  }

  function RunEnd(s: string, i: nat): (j: nat)
    requires i <= |s|
    ensures i <= j <= |s| && (forall k :: i <= k < j ==> s[k] == '`') && (j == |s| || s[j] != '`')
    decreases |s| - i
  {
    if i == |s| || s[i] != '`' then i else RunEnd(s, i + 1)
  }

  type Run = (nat, nat)

  function Length(r: Run): int { r.1 as int - r.0 as int }

  /** The matches of one or more backticks, from offset `i` on. */
  function Runs(s: string, i: nat): seq<Run>
    requires i <= |s|
    decreases |s| - i
  {
    if i == |s| then [] else if s[i] != '`' then Runs(s, i + 1) else [(i, RunEnd(s, i))] + Runs(s, RunEnd(s, i))
  }

  lemma {:induction false} RunsAreTheRuns(s: string, i: nat)
    requires i <= |s| && (i == 0 || i == |s| || s[i - 1] != '`' || s[i] != '`')
    ensures forall r :: r in Runs(s, i) <==> r.0 >= i && IsRun(s, r.0, r.1)
    ensures forall m, n :: 0 <= m < n < |Runs(s, i)| ==> Runs(s, i)[m].1 <= Runs(s, i)[n].0
    ensures forall m :: 0 <= m < |Runs(s, i)| ==> i <= Runs(s, i)[m].0 < Runs(s, i)[m].1
    decreases |s| - i
  {
    if i < |s| {
      if s[i] != '`' {
        RunsAreTheRuns(s, i + 1);
      } else {
        var j := RunEnd(s, i);
        RunsAreTheRuns(s, j);
        assert Runs(s, i) == [(i, j)] + Runs(s, j);
        forall r: Run | r.0 >= i && IsRun(s, r.0, r.1) ensures r in Runs(s, i) {
          if r.0 < j {
            RunsDoNotNest(s, i, j, r.0, r.1);
          }
        }
      }
    }
  }

  lemma RunsDoNotNest(s: string, i: nat, j: nat, a: nat, b: nat)
    requires IsRun(s, i, j) && IsRun(s, a, b) && i <= a < j
    ensures a == i && b == j
  {
  }

  // ---- pairing runs of equal length ----

  /** The end of the first of these runs that has this length. */
  function NextOfLength(runs: seq<Run>, length: int): Option<nat> {
    if runs == [] then None
    else if Length(runs[0]) == length then Some(runs[0].1)
    else NextOfLength(runs[1..], length)
  }

  function PairedEnds(runs: seq<Run>): map<nat, nat> {
    if runs == [] then map[]
    else
      match NextOfLength(runs[1..], Length(runs[0]))
      case None => PairedEnds(runs[1..])
      case Some(end) => PairedEnds(runs[1..])[runs[0].0 := end]
  }

  function EndsOf(line: string): map<nat, nat> { PairedEnds(Runs(line, 0)) }

  /** Where each run closes, found in one pass from the last run to the first. */
  method CodeSpanEnds(line: string) returns (ends: map<nat, nat>)
    ensures ends == EndsOf(line)
  {
    var runs := Runs(line, 0);
    var following: map<int, nat> := map[];
    ends := map[];
    for n := |runs| downto 0
      invariant ends == PairedEnds(runs[n..])
      invariant forall length :: NextOfLength(runs[n..], length)
                              == if length in following then Some(following[length]) else None
    {
      assert runs[n..][1..] == runs[n + 1..];
      var (start, end) := runs[n];
      var length := Length(runs[n]);
      if length in following {
        ends := ends[start := following[length]];
      }
      following := following[length := end];
    }
    assert runs[0..] == runs;
  }

  /** CommonMark, "Code spans": the run at `i` is closed by the next run of equal length, which ends at `e`. */
  ghost predicate Closes(s: string, i: nat, e: nat) {
    exists j: nat, k: nat ::
      IsRun(s, i, j) && IsRun(s, k, e) && j <= k && e - k == j - i
      && forall a: nat, b: nat :: j <= a < k && IsRun(s, a, b) ==> b - a != j - i
  }

  ghost predicate Apart(runs: seq<Run>) {
    && (forall m :: 0 <= m < |runs| ==> runs[m].0 < runs[m].1)
    && (forall m, n :: 0 <= m < n < |runs| ==> runs[m].1 <= runs[n].0)
  }

  lemma {:induction false} NextIsFirst(runs: seq<Run>, length: int) returns (n: nat)
    ensures NextOfLength(runs, length).None? ==> n == |runs|
    ensures NextOfLength(runs, length).Some? ==>
              n < |runs| && Length(runs[n]) == length && runs[n].1 == NextOfLength(runs, length).value
    ensures n <= |runs| && forall m :: 0 <= m < n ==> Length(runs[m]) != length
  {
    n := 0;
    if runs != [] && Length(runs[0]) != length {
      var k := NextIsFirst(runs[1..], length);
      n := k + 1;
      forall m | 0 <= m < n ensures Length(runs[m]) != length {
        assert m > 0 ==> runs[m] == runs[1..][m - 1];
      }
    }
  }

  lemma {:induction false} PairedAt(runs: seq<Run>, n: nat)
    requires Apart(runs) && n < |runs|
    ensures var next := NextOfLength(runs[n + 1..], Length(runs[n]));
            if runs[n].0 in PairedEnds(runs) then next == Some(PairedEnds(runs)[runs[n].0]) else next == None
    decreases n
  {
    if n == 0 {
      NoEarlierStart(runs[1..], runs[0].0);
    } else {
      assert runs[1..][n - 1] == runs[n] && runs[1..][n..] == runs[n + 1..];
      PairedAt(runs[1..], n - 1);
      assert runs[0].0 < runs[n].0;
    }
  }

  lemma {:induction false} NoEarlierStart(runs: seq<Run>, i: nat)
    requires forall m :: 0 <= m < |runs| ==> runs[m].0 > i
    ensures i !in PairedEnds(runs)
  {
    if runs != [] {
      NoEarlierStart(runs[1..], i);
    }
  }

  lemma {:induction false} OnlyStarts(runs: seq<Run>, i: nat)
    requires i in PairedEnds(runs)
    ensures exists n :: 0 <= n < |runs| && runs[n].0 == i
  {
    if i != runs[0].0 {
      OnlyStarts(runs[1..], i);
      var n :| 0 <= n < |runs[1..]| && runs[1..][n].0 == i;
      assert runs[n + 1].0 == i;
    }
  }

  /** Among these runs, the one at `n` is closed by the one at `m`. */
  ghost predicate ClosesAt(runs: seq<Run>, n: nat, m: nat) {
    n < m < |runs| && Length(runs[n]) == Length(runs[m]) && forall x :: n < x < m ==> Length(runs[x]) != Length(runs[n])
  }

  lemma PairedIsClosing(runs: seq<Run>, n: nat, e: nat) returns (m: nat)
    requires Apart(runs) && n < |runs| && runs[n].0 in PairedEnds(runs) && PairedEnds(runs)[runs[n].0] == e
    ensures ClosesAt(runs, n, m) && runs[m].1 == e
  {
    PairedAt(runs, n);
    var rest := runs[n + 1..];
    var k := NextIsFirst(rest, Length(runs[n]));
    m := n + 1 + k;
    forall x | n < x < m ensures Length(runs[x]) != Length(runs[n]) {
      assert runs[x] == rest[x - n - 1];
    }
  }

  lemma ClosingIsPaired(runs: seq<Run>, n: nat, m: nat)
    requires Apart(runs) && ClosesAt(runs, n, m)
    ensures runs[n].0 in PairedEnds(runs) && PairedEnds(runs)[runs[n].0] == runs[m].1
  {
    hide PairedEnds, NextOfLength;
    PairedAt(runs, n);
    var rest := runs[n + 1..];
    var k := NextIsFirst(rest, Length(runs[n]));
    assert rest[m - n - 1] == runs[m];
    assert k <= m - n - 1;
    assert runs[n + 1 + k] == rest[k];
  }

  /** These are all the runs of the line, in order. */
  ghost predicate AllRuns(line: string, runs: seq<Run>) {
    Apart(runs) && forall r: Run :: r in runs <==> IsRun(line, r.0, r.1)
  }

  lemma ClosingInLine(line: string, runs: seq<Run>, n: nat, m: nat)
    requires AllRuns(line, runs) && ClosesAt(runs, n, m)
    ensures Closes(line, runs[n].0, runs[m].1)
  {
    var (i, j) := runs[n];
    var (k, e) := runs[m];
    assert runs[n] in runs && runs[m] in runs;
    forall a: nat, b: nat | j <= a < k && IsRun(line, a, b) ensures b - a != j - i {
      var r: Run := (a, b);
      assert r in runs;
      var x :| 0 <= x < |runs| && runs[x] == r;
      Between(runs, n, x, m);
      assert Length(runs[x]) == b - a;
    }
  }

  lemma InOrder(runs: seq<Run>, a: nat, b: nat)
    requires Apart(runs) && a < |runs| && b < |runs| && runs[a].0 < runs[b].0
    ensures a < b
  {
  }

  lemma Between(runs: seq<Run>, n: nat, x: nat, m: nat)
    requires Apart(runs) && n < |runs| && x < |runs| && m < |runs|
    requires runs[n].1 <= runs[x].0 < runs[m].0
    ensures n < x < m
  {
    InOrder(runs, n, x);
    InOrder(runs, x, m);
  }

  lemma ClosingInRuns(line: string, runs: seq<Run>, i: nat, e: nat) returns (n: nat, m: nat)
    requires AllRuns(line, runs) && Closes(line, i, e)
    ensures ClosesAt(runs, n, m) && runs[n].0 == i && runs[m].1 == e
  {
    hide IsRun;
    var j: nat, k: nat :| IsRun(line, i, j) && IsRun(line, k, e) && j <= k && e - k == j - i
      && forall a: nat, b: nat :: j <= a < k && IsRun(line, a, b) ==> b - a != j - i;
    var r: Run, t: Run := (i, j), (k, e);
    assert r in runs && t in runs;
    n :| 0 <= n < |runs| && runs[n] == r;
    m :| 0 <= m < |runs| && runs[m] == t;
    assert n < m by { assert m < n ==> t.1 <= r.0; }
    forall x | n < x < m ensures Length(runs[x]) != Length(runs[n]) {
      assert runs[x] in runs;
      assert IsRun(line, runs[x].0, runs[x].1) && j <= runs[x].0 < k;
    }
  }

  /** The recorded ends are exactly the closings of CommonMark's code spans. */
  lemma EndsAreClosings(line: string, i: nat, e: nat)
    ensures (i in EndsOf(line) && EndsOf(line)[i] == e) <==> Closes(line, i, e)
  {
    var runs := Runs(line, 0);
    RunsAreTheRuns(line, 0);
    assert AllRuns(line, runs);
    if i in EndsOf(line) && EndsOf(line)[i] == e {
      OnlyStarts(runs, i);
      var n :| 0 <= n < |runs| && runs[n].0 == i;
      var m := PairedIsClosing(runs, n, e);
      ClosingInLine(line, runs, n, m);
    }
    if Closes(line, i, e) {
      var n, m := ClosingInRuns(line, runs, i, e);
      ClosingIsPaired(runs, n, m);
    }
  }
}
