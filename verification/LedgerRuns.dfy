// Any number of workflow runs against one ledger file: each reads, computes, and later writes by
// compare-and-swap. A write may commit although its client saw a failure, or arrive much later.
module LedgerRuns {
  import opened Wrappers
  import opened Sequences
  import opened Decimal
  import opened Versions
  import opened Plans
  import opened Ledger

  /** What one committed write did. */
  datatype Commit =
    | Reserving(ask: Ask, seen: Seen, plan: Plan)
    | Publishing(plan: Plan, run: int, parent: Option<string>, promotion: bool, published: set<string>)

  /** A write in flight: it replaces `previous`, the content its client read, by `next`. */
  datatype Write = Write(previous: Option<Ledger>, next: Ledger, commit: Commit)

  /**
   * The blob SHA a write must match is a hash of the content, so equal contents match. `writes`
   * holds every write a client may have sent and the server not yet decided.
   */
  datatype World = World(file: Option<Ledger>, branch: bool, writes: map<nat, Write>, history: seq<Commit>)

  datatype Event =
    | Reserves(client: nat, ask: Ask, seen: Seen)
    | Publishes(client: nat, plan: Plan, run: int, parent: Option<string>, promotion: bool, published: set<string>)
    | CreatesBranch(client: nat)
    | Arrives(client: nat)
    | Fails(client: nat)

  ghost function Content(file: Option<Ledger>): Ledger { if file.None? then EmptyLedger else file.value }

  ghost predicate Enabled(w: World, e: Event) {
    match e
    case Reserves(client, ask, seen) =>
      client !in w.writes && ReadState(w.file, w.branch).Some?
      && Reserve(ReadState(w.file, w.branch).value, ask, seen).Reserved?
    case Publishes(client, plan, run, parent, promotion, published) =>
      client !in w.writes && ReadState(w.file, w.branch).Some?
      && Begin(ReadState(w.file, w.branch).value, plan, run, parent, promotion, published).Some?
    case CreatesBranch(client) => client in w.writes
    case Arrives(client) => client in w.writes
    case Fails(client) => client in w.writes
  }

  /** A write commits only over the content it was computed from, and only on an existing branch. */
  ghost function Step(w: World, e: Event): World
    requires Enabled(w, e)
  {
    match e
    case Reserves(client, ask, seen) =>
      var r := Reserve(ReadState(w.file, w.branch).value, ask, seen);
      w.(writes := w.writes[client := Write(w.file, r.ledger, Reserving(ask, seen, r.plan))])
    case Publishes(client, plan, run, parent, promotion, published) =>
      var l := Begin(ReadState(w.file, w.branch).value, plan, run, parent, promotion, published).value;
      w.(writes := w.writes[client := Write(w.file, l, Publishing(plan, run, parent, promotion, published))])
    case CreatesBranch(_) => w.(branch := true)
    case Arrives(client) =>
      var write := w.writes[client];
      var rest := w.(writes := w.writes - {client});
      if w.branch && write.previous == w.file
      then rest.(file := Some(write.next), history := w.history + [write.commit])
      else rest
    case Fails(client) => w.(writes := w.writes - {client})
  }

  const NewWorld := World(None, false, map[], [])

  ghost predicate Possible(w: World, run: seq<Event>)
    decreases |run|
  {
    run == [] || (Enabled(w, run[0]) && Possible(Step(w, run[0]), run[1..]))
  }

  ghost function After(w: World, run: seq<Event>): World
    requires Possible(w, run)
    decreases |run|
  {
    if run == [] then w else After(Step(w, run[0]), run[1..])
  }

  // ---- the ledger as a sequential object ----

  /** The commit is what its client would have computed from this very ledger. */
  ghost predicate Lawful(l: Ledger, c: Commit) {
    match c
    case Reserving(ask, seen, plan) => Reserve(l, ask, seen).Reserved? && Reserve(l, ask, seen).plan == plan
    case Publishing(plan, run, parent, promotion, published) => Begin(l, plan, run, parent, promotion, published).Some?
  }

  ghost function Apply(l: Ledger, c: Commit): Ledger
    requires Lawful(l, c)
  {
    match c
    case Reserving(ask, seen, _) => Reserve(l, ask, seen).ledger
    case Publishing(plan, run, parent, promotion, published) => Begin(l, plan, run, parent, promotion, published).value
  }

  ghost predicate LawfulHistory(l: Ledger, h: seq<Commit>)
    decreases |h|
  {
    h == [] || (Lawful(l, h[0]) && LawfulHistory(Apply(l, h[0]), h[1..]))
  }

  ghost function Total(l: Ledger, h: seq<Commit>): Ledger
    requires LawfulHistory(l, h)
    decreases |h|
  {
    if h == [] then l else Total(Apply(l, h[0]), h[1..])
  }

  lemma {:induction false} HistoryAppend(l: Ledger, h: seq<Commit>, c: Commit)
    requires LawfulHistory(l, h) && Lawful(Total(l, h), c)
    ensures LawfulHistory(l, h + [c]) && Total(l, h + [c]) == Apply(Total(l, h), c)
    decreases |h|
  {
    hide Lawful, Apply;
    if h == [] {
      assert h + [c] == [c] + [];
      FirstCommit(l, c, []);
    } else {
      HistoryAppend(Apply(l, h[0]), h[1..], c);
      assert h + [c] == [h[0]] + (h[1..] + [c]);
      FirstCommit(l, h[0], h[1..] + [c]);
    }
  }

  /** Every write in flight is lawful for the content it will be compared with. */
  ghost predicate WriteOk(write: Write) {
    Lawful(Content(write.previous), write.commit) && write.next == Apply(Content(write.previous), write.commit)
  }

  ghost predicate Inv(w: World) {
    && LawfulHistory(EmptyLedger, w.history)
    && Content(w.file) == Total(EmptyLedger, w.history)
    && (w.file.None? ==> w.history == [])
    && Readable(Content(w.file))
    && (forall c :: c in w.writes ==> WriteOk(w.writes[c]))
  }

  lemma StepKeeps(w: World, e: Event)
    requires Inv(w) && Enabled(w, e)
    ensures Inv(Step(w, e))
  {
    match e
    case Arrives(client) =>
      var write := w.writes[client];
      assert WriteOk(write);
      if w.branch && write.previous == w.file {
        HistoryAppend(EmptyLedger, w.history, write.commit);
        ApplyIsReadable(Content(w.file), write.commit);
      }
    case _ =>
  }

  lemma ApplyIsReadable(l: Ledger, c: Commit)
    requires Readable(l) && Lawful(l, c)
    ensures Readable(Apply(l, c))
  {
    match c
    case Reserving(ask, seen, _) => ReservedIsReadable(l, ask, seen);
    case Publishing(plan, run, parent, promotion, published) =>
      BegunIsReadable(l, plan, run, parent, promotion, published);
  }

  lemma {:induction false} RunKeeps(w: World, run: seq<Event>)
    requires Inv(w) && Possible(w, run)
    ensures Inv(After(w, run))
    decreases |run|
  {
    if run != [] {
      StepKeeps(w, run[0]);
      RunKeeps(Step(w, run[0]), run[1..]);
    }
  }

  /**
   * Whatever the interleaving, the committed writes are a lawful sequential history, the file is
   * its outcome, and the next reader accepts it unless the branch was made and never written.
   */
  lemma HistoriesAreSequential(run: seq<Event>)
    requires Possible(NewWorld, run)
    ensures var w := After(NewWorld, run);
            && LawfulHistory(EmptyLedger, w.history) && Content(w.file) == Total(EmptyLedger, w.history)
            && (ReadState(w.file, w.branch).None? <==> w.branch && w.file.None?)
  {
    assert LawfulHistory(EmptyLedger, []) && Total(EmptyLedger, []) == EmptyLedger;
    RunKeeps(NewWorld, run);
  }

  /**
   * The first client of a repository that makes the branch and stops before its write leaves a
   * ledger nobody can read: no further event of any kind is then possible.
   */
  lemma AbandonedBranchIsStuck(client: nat, ask: Ask, seen: Seen, e: Event)
    requires Reserve(EmptyLedger, ask, seen).Reserved?
    ensures var run := [Reserves(client, ask, seen), CreatesBranch(client), Fails(client)];
            Possible(NewWorld, run) && !Enabled(After(NewWorld, run), e)
  {
    var e0, e1, e2 := Reserves(client, ask, seen), CreatesBranch(client), Fails(client);
    var w1 := Step(NewWorld, e0);
    var w2 := Step(w1, e1);
    var w3 := Step(w2, e2);
    assert w3.writes == map[];
    assert [e0, e1, e2][1..] == [e1, e2] && [e1, e2][1..] == [e2] && [e2][1..] == [];
    assert Possible(w3, []) && Possible(w2, [e2]) && Possible(w1, [e1, e2]);
    assert After(w3, []) == w3 && After(w2, [e2]) == w3 && After(w1, [e1, e2]) == w3;
  }

  // ---- what lawful histories guarantee ----

  ghost function Before(h: seq<Commit>, k: nat): Ledger
    requires LawfulHistory(EmptyLedger, h) && k <= |h|
  {
    PrefixLawful(EmptyLedger, h, k);
    Total(EmptyLedger, h[..k])
  }

  lemma FirstCommit(l: Ledger, c: Commit, h: seq<Commit>)
    ensures LawfulHistory(l, [c] + h) <==> Lawful(l, c) && LawfulHistory(Apply(l, c), h)
    ensures LawfulHistory(l, [c] + h) ==> Total(l, [c] + h) == Total(Apply(l, c), h)
  {
    Prepended(c, h);
  }

  lemma {:induction false} PrefixLawful(l: Ledger, h: seq<Commit>, k: nat)
    requires LawfulHistory(l, h) && k <= |h|
    ensures LawfulHistory(l, h[..k])
    ensures k < |h| ==> Lawful(Total(l, h[..k]), h[k])
    decreases |h|
  {
    if k > 0 {
      TakeFront(h, k);
      PrefixLawful(Apply(l, h[0]), h[1..], k - 1);
      FirstCommit(l, h[0], h[1..][..k - 1]);
    }
  }

  lemma TotalStep(l: Ledger, h: seq<Commit>, k: nat)
    requires LawfulHistory(l, h) && k < |h|
    ensures LawfulHistory(l, h[..k]) && LawfulHistory(l, h[..k + 1]) && Lawful(Total(l, h[..k]), h[k])
    ensures Total(l, h[..k + 1]) == Apply(Total(l, h[..k]), h[k])
  {
    PrefixLawful(l, h, k);
    HistoryAppend(l, h[..k], h[k]);
    TakeNext(h, k);
  }

  lemma NextBefore(h: seq<Commit>, k: nat)
    requires LawfulHistory(EmptyLedger, h) && k < |h|
    ensures Lawful(Before(h, k), h[k]) && Before(h, k + 1) == Apply(Before(h, k), h[k])
  {
    TotalStep(EmptyLedger, h, k);
  }

  /** One ledger extends another: nothing reserved is lost or changed, and neither number goes back. */
  ghost predicate Extends(l: Ledger, m: Ledger) {
    && l.counter <= m.counter && l.floor <= m.floor
    && forall run :: run in l.plans ==> run in m.plans && m.plans[run] == l.plans[run]
  }

  lemma StepGrows(l: Ledger, c: Commit)
    requires Readable(l) && Lawful(l, c)
    ensures Extends(l, Apply(l, c)) && Readable(Apply(l, c))
  {
    ApplyIsReadable(l, c);
  }

  lemma {:induction false} OnlyGrows(h: seq<Commit>, i: nat, j: nat)
    requires LawfulHistory(EmptyLedger, h) && i <= j <= |h|
    ensures Extends(Before(h, i), Before(h, j)) && Readable(Before(h, j))
    decreases j
  {
    if j > 0 {
      NextBefore(h, j - 1);
      OnlyGrows(h, if i < j then i else j - 1, j - 1);
      StepGrows(Before(h, j - 1), h[j - 1]);
    }
  }

  /** One reservation: a run not seen before takes the next number above the counter and the policy's floor. */
  lemma ReservationTakes(l: Ledger, c: Commit)
    requires Readable(l) && Lawful(l, c) && c.Reserving?
    ensures var m := Apply(l, c);
            && m.counter == BuildOf(c) > l.counter && c.ask.policy.floor < BuildOf(c)
            && c.ask.run > 0 && c.ask.run !in l.plans && c.ask.run in m.plans
            && m.plans[c.ask.run] == Reservation(c.plan, c.ask.parent)
            && ValidPlan(c.plan) && c.plan.base == c.ask.base && c.plan.channel == c.ask.channel
            && c.plan.sequence == ChooseSequence(l, c.ask, c.seen)
  {
  }

  /** The number a commit takes. */
  function BuildOf(c: Commit): int { if c.plan.build.Some? then c.plan.build.value else 0 }

  /**
   * Build numbers strictly increase in commit order, stay above the floor of the policy they were
   * reserved under, and are bounded by the counter, which is the last one given out.
   */
  lemma BuildNumbersIncrease(h: seq<Commit>, i: nat, j: nat)
    requires LawfulHistory(EmptyLedger, h) && i < j < |h| && h[i].Reserving? && h[j].Reserving?
    ensures BuildOf(h[i]) < BuildOf(h[j]) == Before(h, j + 1).counter <= Before(h, |h|).counter
    ensures h[j].ask.policy.floor < BuildOf(h[j])
    ensures h[i].ask.run != h[j].ask.run
  {
    Took(h, i, j);
    Took(h, j, |h|);
  }

  /** What the `i`th commit reserved is still there at any later point, under a number it then has passed. */
  lemma Took(h: seq<Commit>, i: nat, j: nat)
    requires LawfulHistory(EmptyLedger, h) && i < j <= |h| && h[i].Reserving?
    ensures var c, l := h[i], Before(h, j);
            && Before(h, i + 1).counter == BuildOf(c) <= l.counter && c.ask.policy.floor < BuildOf(c)
            && (j < |h| && h[j].Reserving? ==> BuildOf(c) < BuildOf(h[j]) && h[j].ask.run != c.ask.run)
            && c.ask.run in l.plans && l.plans[c.ask.run] == Reservation(c.plan, c.ask.parent) && ValidPlan(c.plan)
            && c.plan.sequence == ChooseSequence(Before(h, i), c.ask, c.seen)
            && c.plan.base == c.ask.base && c.plan.channel == c.ask.channel && c.ask.run > 0
  {
    NextBefore(h, i);
    OnlyGrows(h, 0, i);
    OnlyGrows(h, i + 1, j);
    ReservationTakes(Before(h, i), h[i]);
    if j < |h| && h[j].Reserving? {
      NextBefore(h, j);
      ReservationTakes(Before(h, j), h[j]);
    }
  }

  /** Two runs hold the same tag exactly when both hold the stable tag of one base. */
  lemma TagsAreDistinct(h: seq<Commit>, i: nat, j: nat)
    requires LawfulHistory(EmptyLedger, h) && i < j < |h| && h[i].Reserving? && h[j].Reserving?
    ensures h[i].plan.tag == h[j].plan.tag <==>
              h[i].plan.channel.Stable? && h[j].plan.channel.Stable? && h[i].plan.base == h[j].plan.base
  {
    NextBefore(h, j);
    Took(h, i, j);
    Took(h, j, j + 1);
    var p, q, l := h[i].plan, h[j].plan, Before(h, j);
    if p.tag == q.tag {
      TagsTellPlansApart(p, q);
      if q.channel.Nightly? {
        NightliesDiffer(h[i].ask, h[j].ask, p.sequence, q.sequence);
      } else if !q.channel.Stable? {
        FreshNumberExceedsAll(l, h[j].ask, h[j].seen, h[i].ask.run, "");
      }
    }
  }

  /** No commit reserves a tag that its run saw taken, or for anything but what its run asked for. */
  lemma CommittedTagsWereFree(h: seq<Commit>, i: nat)
    requires LawfulHistory(EmptyLedger, h) && i < |h| && h[i].Reserving?
    ensures var c := h[i];
            && c.plan.tag !in c.seen.taken && c.plan.base == c.ask.base && c.plan.channel == c.ask.channel
            && c.plan.sourceSha == c.ask.sha && c.plan.policyDigest == c.ask.policy.digest
  {
    NextBefore(h, i);
    FreshIsFree(Before(h, i), h[i].ask, h[i].seen);
  }

  lemma NightliesDiffer(a: Ask, b: Ask, s: Sequence, t: Sequence)
    requires a.run > 0 && b.run > 0 && a.run != b.run
    requires s == Text(NightlySuffix(a.stamp, a.run, a.attempt)) && t == Text(NightlySuffix(b.stamp, b.run, b.attempt))
    requires SplitNightly(s.s).Some? && SplitNightly(t.s).Some?
    ensures s != t
  {
    SuffixRun(a.stamp, a.run, a.attempt);
    SuffixRun(b.stamp, b.run, b.attempt);
    if Digits(a.run) == Digits(b.run) { DigitsInjective(a.run, b.run); }
  }

  /** A well-formed nightly suffix names its run. */
  lemma SuffixRun(stamp: string, run: nat, attempt: nat)
    requires SplitNightly(NightlySuffix(stamp, run, attempt)).Some?
    ensures SplitNightly(NightlySuffix(stamp, run, attempt)).value.1 == Digits(run)
  {
    var s := NightlySuffix(stamp, run, attempt);
    var tail := Digits(run) + "." + Digits(attempt);
    assert s == stamp + "." + tail;
    assert Lacks(stamp, '.') by {
      if exists i :: 0 <= i < |stamp| && stamp[i] == '.' {
        // Three or more separators: the last part would hold one and not be a numeral.
        ThreeDots(stamp, Digits(run), Digits(attempt));
      }
    }
    CutJoined(stamp, '.', tail);
    assert tail == Digits(run) + ['.'] + Digits(attempt);
    CutJoined(Digits(run), '.', Digits(attempt));
  }

  lemma ThreeDots(stamp: string, run: string, attempt: string)
    requires AllDigits(run) && AllDigits(attempt) && exists i :: 0 <= i < |stamp| && stamp[i] == '.'
    ensures SplitNightly(stamp + "." + run + "." + attempt).None?
  {
    var s := stamp + "." + run + "." + attempt;
    var (a, r) := Cut(s, '.');
    assert s[|stamp|] == '.';
    var (b, t) := Cut(r.value, '.');
    if t.Some? {
      assert s == a + "." + (b + "." + t.value);
      var k := |stamp| + 1 + |run|;
      assert s[k] == '.' && s[|stamp|] == '.';
      var i :| 0 <= i < |stamp| && stamp[i] == '.';
      assert s[i] == '.';
      assert |a| <= i;
      assert |a| + 1 + |b| <= |stamp|;
      assert t.value[k - (|a| + |b| + 2)] == s[k];
    }
  }

  /** Asking again for a run that has committed returns its plan, whatever has been committed since. */
  lemma RepeatReturnsSamePlan(h: seq<Commit>, i: nat, j: nat, again: Ask, seen: Seen)
    requires LawfulHistory(EmptyLedger, h) && i < j <= |h| && h[i].Reserving?
    requires again == h[i].ask.(attempt := again.attempt, stamp := again.stamp)
    ensures Reserve(Before(h, j), again, seen) == Repeated(h[i].plan)
  {
    NextBefore(h, i);
    OnlyGrows(h, i + 1, j);
    var a := h[i].ask;
    CreatedPlansAreBound(a.base, a.channel, ChooseSequence(Before(h, i), a, h[i].seen), a.sha, a.policy,
                         Some(NextBuild(Before(h, i).counter, a.policy.floor)), a.policy, a.sha);
    assert a.run in Before(h, i + 1).plans;
  }

  /**
   * No downgrade: an ordinary publication takes a strictly greater number than every publication
   * before it, and a byte promotion never takes a smaller one. In particular no number is consumed
   * twice by ordinary publication, even after a response was lost.
   */
  lemma PublicationsNeverGoBack(h: seq<Commit>, i: nat, j: nat)
    requires LawfulHistory(EmptyLedger, h) && i < j < |h| && h[i].Publishing? && h[j].Publishing?
    ensures BuildOf(h[i]) <= BuildOf(h[j])
    ensures !h[j].promotion ==> BuildOf(h[i]) < BuildOf(h[j])
    ensures Before(h, j + 1).floor == BuildOf(h[j]) <= Before(h, j + 1).counter
  {
    NextBefore(h, i);
    NextBefore(h, j);
    OnlyGrows(h, i + 1, j);
    OnlyGrows(h, 0, j + 1);
  }

  /** Ordinary publication of a plan is refused for good once it has been committed. */
  lemma PublishedOnce(h: seq<Commit>, i: nat, j: nat, run: int, parent: Option<string>, published: set<string>)
    requires LawfulHistory(EmptyLedger, h) && i < j <= |h| && h[i].Publishing?
    ensures Begin(Before(h, j), h[i].plan, run, parent, false, published).None?
  {
    NextBefore(h, i);
    OnlyGrows(h, i + 1, j);
  }

  // ---- what may be published, read off the history ----

  /** Whatever the ledger holds, some commit reserved. */
  lemma {:induction false} ReservedBefore(h: seq<Commit>, j: nat, run: int) returns (i: nat)
    requires LawfulHistory(EmptyLedger, h) && j <= |h| && run in Before(h, j).plans
    ensures i < j && h[i].Reserving? && h[i].ask.run == run
    ensures Before(h, j).plans[run] == Reservation(h[i].plan, h[i].ask.parent)
    decreases j
  {
    assert j > 0;
    NextBefore(h, j - 1);
    PlansStep(Before(h, j - 1), h[j - 1], run);
    if run in Before(h, j - 1).plans {
      i := ReservedBefore(h, j - 1, run);
    } else {
      i := j - 1;
    }
  }

  lemma PlansStep(l: Ledger, c: Commit, run: int)
    requires Lawful(l, c)
    ensures run in l.plans ==> run in Apply(l, c).plans && Apply(l, c).plans[run] == l.plans[run]
    ensures run in Apply(l, c).plans && run !in l.plans ==>
              c.Reserving? && c.ask.run == run && Apply(l, c).plans[run] == Reservation(c.plan, c.ask.parent)
  {
  }

  ghost predicate PublishedBelow(h: seq<Commit>, j: nat, n: int)
    requires j <= |h|
  {
    forall k :: 0 <= k < j && h[k].Publishing? ==> BuildOf(h[k]) < n
  }

  lemma PublishedBelowStep(h: seq<Commit>, j: nat, n: int)
    requires 0 < j <= |h|
    ensures PublishedBelow(h, j, n) <==> PublishedBelow(h, j - 1, n) && (h[j - 1].Publishing? ==> BuildOf(h[j - 1]) < n)
  {
  }

  lemma FloorStep(l: Ledger, c: Commit)
    requires Readable(l) && Lawful(l, c)
    ensures c.Publishing? ==> Apply(l, c).floor == BuildOf(c) >= l.floor
    ensures c.Reserving? ==> Apply(l, c).floor == l.floor
  {
  }

  /** The floor is the greatest number any publication has taken. */
  lemma {:induction false} FloorBelow(h: seq<Commit>, j: nat, n: int)
    requires LawfulHistory(EmptyLedger, h) && j <= |h| && n > 0
    ensures Before(h, j).floor < n <==> PublishedBelow(h, j, n)
    decreases j
  {
    hide LawfulHistory;
    if j == 0 {
      StartsEmpty(h);
    } else {
      FloorBelow(h, j - 1, n);
      PublishedBelowStep(h, j, n);
      FloorAfter(h, j - 1);
    }
  }

  lemma StartsEmpty(h: seq<Commit>)
    requires LawfulHistory(EmptyLedger, h)
    ensures Before(h, 0) == EmptyLedger
  {
    assert h[..0] == [];
  }

  lemma FloorAfter(h: seq<Commit>, j: nat)
    requires LawfulHistory(EmptyLedger, h) && j < |h|
    ensures h[j].Publishing? ==> Before(h, j + 1).floor == BuildOf(h[j]) >= Before(h, j).floor
    ensures h[j].Reserving? ==> Before(h, j + 1).floor == Before(h, j).floor
  {
    OnlyGrows(h, 0, j);
    NextBefore(h, j);
    FloorStep(Before(h, j), h[j]);
  }

  /** No reserved plan whose tag is published has this number or a greater one. */
  ghost predicate ReservedBelow(h: seq<Commit>, j: nat, published: set<string>, n: int)
    requires j <= |h|
  {
    forall k :: 0 <= k < j && h[k].Reserving? && h[k].plan.tag in published ==> BuildOf(h[k]) < n
  }

  predicate TagsBelow(l: Ledger, published: set<string>, n: int) {
    forall r :: r in l.plans && l.plans[r].plan.tag in published && l.plans[r].plan.build.Some? ==>
      l.plans[r].plan.build.value < n
  }

  lemma TakenTags(h: seq<Commit>, j: nat, published: set<string>, n: int)
    requires LawfulHistory(EmptyLedger, h) && j <= |h|
    ensures TagsBelow(Before(h, j), published, n) <==> ReservedBelow(h, j, published, n)
  {
    var l := Before(h, j);
    OnlyGrows(h, 0, j);
    forall k | 0 <= k < j && h[k].Reserving?
      ensures h[k].ask.run in l.plans && l.plans[h[k].ask.run].plan == h[k].plan
    {
      Took(h, k, j);
    }
    forall r | r in l.plans ensures exists k :: 0 <= k < j && h[k].Reserving? && h[k].plan == l.plans[r].plan {
      var k := ReservedBefore(h, j, r);
    }
  }

  /** This commit reserved the plan for this run, and it is newer than whatever was published since. */
  ghost predicate IsNewestReserved(h: seq<Commit>, j: nat, i: nat, plan: Plan, run: int, parent: Option<string>,
                                   published: set<string>)
    requires j <= |h|
  {
    && i < j && h[i].Reserving? && h[i].plan == plan && h[i].ask.run == run && h[i].ask.parent == parent
    && PublishedBelow(h, j, BuildOf(h[i])) && ReservedBelow(h, j, published, BuildOf(h[i]))
  }

  lemma PublishableIsNewest(h: seq<Commit>, j: nat, plan: Plan, run: int, parent: Option<string>,
                            published: set<string>)
    returns (i: nat)
    requires LawfulHistory(EmptyLedger, h) && j <= |h| && MayPublish(Before(h, j), plan, run, parent, published)
    ensures IsNewestReserved(h, j, i, plan, run, parent, published)
  {
    i := ReservedBefore(h, j, run);
    OnlyGrows(h, 0, j);
    FloorBelow(h, j, plan.build.value);
    TakenTags(h, j, published, plan.build.value);
  }

  lemma NewestIsPublishable(h: seq<Commit>, j: nat, i: nat, plan: Plan, run: int, parent: Option<string>,
                            published: set<string>)
    requires LawfulHistory(EmptyLedger, h) && j <= |h| && IsNewestReserved(h, j, i, plan, run, parent, published)
    ensures MayPublish(Before(h, j), plan, run, parent, published)
  {
    Took(h, i, j);
    OnlyGrows(h, 0, i);
    OnlyGrows(h, 0, j);
    FloorBelow(h, j, BuildOf(h[i]));
    TakenTags(h, j, published, BuildOf(h[i]));
  }

  /**
   * What the check before an ordinary publication comes to: it passes exactly when the plan was reserved by
   * a committed run of that number and parent, no publication committed before now took as great a number,
   * and no reserved plan whose tag is published has one.
   */
  lemma PublishableIffNewest(h: seq<Commit>, j: nat, plan: Plan, run: int, parent: Option<string>,
                             published: set<string>)
    requires LawfulHistory(EmptyLedger, h) && j <= |h|
    ensures MayPublish(Before(h, j), plan, run, parent, published) <==>
              exists i :: IsNewestReserved(h, j, i, plan, run, parent, published)
  {
    if MayPublish(Before(h, j), plan, run, parent, published) {
      var i := PublishableIsNewest(h, j, plan, run, parent, published);
    }
    if i: nat :| IsNewestReserved(h, j, i, plan, run, parent, published) {
      NewestIsPublishable(h, j, i, plan, run, parent, published);
    }
  }

  /**
   * This commit reserved the candidate, its tag is released, and neither a publication since nor a released tag
   * of another plan has a greater number.
   */
  ghost predicate IsNewestCandidate(h: seq<Commit>, j: nat, i: nat, plan: Plan, published: set<string>)
    requires j <= |h|
  {
    && i < j && h[i].Reserving? && h[i].plan == plan && plan.channel.Rc? && plan.promotion.PromoteBytes?
    && plan.tag in published && PublishedBelow(h, j, BuildOf(h[i]) + 1)
    && ReservedBelow(h, j, published - {plan.tag}, BuildOf(h[i]) + 1)
  }

  /** No plan is reserved twice. */
  lemma ReservedForOne(h: seq<Commit>, j: nat, run: int, other: int)
    requires LawfulHistory(EmptyLedger, h) && j <= |h| && run in Before(h, j).plans && other in Before(h, j).plans
    requires Before(h, j).plans[run].plan == Before(h, j).plans[other].plan
    ensures run == other
  {
    hide LawfulHistory, Before;
    var i := ReservedBefore(h, j, run);
    var k := ReservedBefore(h, j, other);
    if i < k { BuildNumbersIncrease(h, i, k); }
    if k < i { BuildNumbersIncrease(h, k, i); }
  }

  lemma PromotableIsNewest(h: seq<Commit>, j: nat, plan: Plan, published: set<string>) returns (i: nat)
    requires LawfulHistory(EmptyLedger, h) && j <= |h| && MayPromote(Before(h, j), plan, published)
    ensures IsNewestCandidate(h, j, i, plan, published)
  {
    hide LawfulHistory, Before, PublishedBelow, ReservedBelow;
    var run :| run in Before(h, j).plans && Before(h, j).plans[run].plan == plan;
    i := ReservedBefore(h, j, run);
    OnlyGrows(h, 0, j);
    FloorBelow(h, j, BuildOf(h[i]) + 1);
    TakenTags(h, j, published - {plan.tag}, BuildOf(h[i]) + 1);
  }

  lemma NewestIsPromotable(h: seq<Commit>, j: nat, i: nat, plan: Plan, published: set<string>)
    requires LawfulHistory(EmptyLedger, h) && j <= |h| && IsNewestCandidate(h, j, i, plan, published)
    ensures MayPromote(Before(h, j), plan, published)
  {
    hide LawfulHistory, Before, PublishedBelow, ReservedBelow;
    var l, run := Before(h, j), h[i].ask.run;
    Took(h, i, j);
    OnlyGrows(h, 0, i);
    OnlyGrows(h, 0, j);
    FloorBelow(h, j, BuildOf(h[i]) + 1);
    TakenTags(h, j, published - {plan.tag}, BuildOf(h[i]) + 1);
    forall q | q in l.plans && l.plans[q].plan == plan ensures q == run { ReservedForOne(h, j, q, run); }
    assert run in l.plans && l.plans[run].plan == plan;
  }

  /**
   * The same for the check before a byte promotion. That the reservation be the only one of the plan, which
   * the check demands too, holds of every history.
   */
  lemma PromotableIffNewest(h: seq<Commit>, j: nat, plan: Plan, published: set<string>)
    requires LawfulHistory(EmptyLedger, h) && j <= |h|
    ensures MayPromote(Before(h, j), plan, published) <==> exists i :: IsNewestCandidate(h, j, i, plan, published)
  {
    if MayPromote(Before(h, j), plan, published) {
      var i := PromotableIsNewest(h, j, plan, published);
    }
    if i: nat :| IsNewestCandidate(h, j, i, plan, published) {
      NewestIsPromotable(h, j, i, plan, published);
    }
  }

  /** Stable tags are the exception: two runs may both reserve one. */
  lemma StableTagsMayRepeat(l: Ledger, a: Ask, seen: Seen, run: int)
    requires Readable(l) && a.channel.Stable? && Reserve(l, a, seen).Reserved?
    requires run > 0 && run !in l.plans && run != a.run
    requires l.counter + 2 <= MAX_BUILD && a.policy.floor + 2 <= MAX_BUILD
    requires forall d :: d in a.policy.files ==> !d.value.AppleBuildNumber?
    ensures var b, m := a.(run := run), Reserve(l, a, seen).ledger;
            && Reserve(m, b, seen).Reserved?
            && Reserve(m, b, seen).plan.tag == Reserve(l, a, seen).plan.tag
  {
  }
}
