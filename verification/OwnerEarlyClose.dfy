// A refresh that ends while a lookup is outstanding: why the agreement of the two tables needs the window.
module OwnerEarlyClose {
  import opened Wrappers
  import opened Lexicographic
  import opened Selection
  import opened Batches
  import opened OwnerState
  import opened OwnerProtocol
  import opened OwnerAgreement

  // ---- what an early end leaves behind ----

  /** The refresh is over, and a lookup that nobody has answered yet is still outstanding. */
  ghost predicate Exposed(y: System, n: nat, b: string) {
    var own := y.tracker.own;
    && own.started && !own.closed && !own.refreshing && own.changed == {} && IsVenus(b)
    && n in own.requests && own.requests[n] == GetNameOwner(b) && n !in y.answers
  }

  /** Once the refresh is over, looking names up does not open it again, and each call that is queued is kept. */
  lemma {:induction false} LookUpSends(o: Ownership, names: seq<string>, raised: set<string>, now: real, b: string)
    returns (n: nat)
    requires !o.refreshing && o.changed == {} && b in names && b !in raised
    ensures var o' := LookUp(o, names, raised, now);
            && o'.started == o.started && o'.closed == o.closed && !o'.refreshing && o'.changed == {}
            && o.nextToken <= n && n in o'.requests && o'.requests[n] == GetNameOwner(b)
    decreases |names|
  {
    var o1 := CallDaemon(o, GetNameOwner(names[0]), names[0] !in raised, now);
    if names[0] == b {
      n := o.nextToken;
      LookUpKeeps(o1, names[1..], raised, now, n);
    } else {
      n := LookUpSends(o1, names[1..], raised, now, b);
    }
  }

  lemma {:induction false} LookUpKeeps(o: Ownership, names: seq<string>, raised: set<string>, now: real, n: nat)
    requires !o.refreshing && o.changed == {} && n in o.requests && n < o.nextToken
    ensures var o' := LookUp(o, names, raised, now);
            && o'.started == o.started && o'.closed == o.closed && !o'.refreshing && o'.changed == {}
            && n in o'.requests && o'.requests[n] == o.requests[n]
    decreases |names|
  {
    if names != [] {
      var o1 := CallDaemon(o, GetNameOwner(names[0]), names[0] !in raised, now);
      LookUpKeeps(o1, names[1..], raised, now, n);
    }
  }

  /** The first of several lookups raises with nothing else outstanding. */
  lemma FirstRaises(o: Ownership, names: seq<string>, raised: set<string>, now: real, b: string) returns (n: nat)
    requires o.requests == map[] && names != [] && names[0] in raised && b in names && b !in raised
    ensures var o' := LookUp(o, names, raised, now);
            && o'.started == o.started && o'.closed == o.closed && !o'.refreshing && o'.changed == {}
            && o.nextToken <= n && n in o'.requests && o'.requests[n] == GetNameOwner(b)
  {
    n := LookUpSends(CallDaemon(o, GetNameOwner(names[0]), false, now), names[1..], raised, now, b);
  }

  /** Every event that ends a refresh too early leaves an exposed lookup. */
  lemma EarlyEndExposes(y: System, e: Event) returns (n: nat, b: string)
    requires Inv(y) && CanHappen(y, e) && !KeepsWindow(y, e) && !y.tracker.own.closed
    ensures Exposed(Step(y, e), n, b)
  {
    var own, names := y.tracker.own, y.answers[e.token].reply.names;
    var order := Sorted(Lookups(own, names));
    var left := own.(requests := own.requests - {e.token});
    assert !WindowKept(left, order, e.raised);
    b :| b in order && b !in e.raised;
    var gone := own.services.Keys - VenusOnly(names) - own.changed;
    n := FirstRaises(left.(services := own.services - gone), order, e.raised, e.now, b);
  }

  // ---- what can come of it ----

  ghost predicate Unsettles(y: System, run: seq<Event>) {
    Possible(y, run) && WindowsStay(y, run) && !Settled(After(y, run))
  }

  lemma UnsettlesThen(y: System, e: Event, run: seq<Event>)
    requires CanHappen(y, e) && KeepsWindow(y, e) && Unsettles(Step(y, e), run)
    ensures Unsettles(y, [e] + run)
  {
    Then(y, e, run);
  }

  /** The daemon has answered the lookup, and the name has lost that owner since. */
  ghost predicate Stale(y: System, n: nat, b: string, old': string) {
    var own := y.tracker.own;
    && own.started && !own.closed && !own.refreshing && own.changed == {} && IsVenus(b)
    && n in y.answers && y.answers[n] == Answered(GetNameOwner(b), Owner(old'))
    && old' != "" && OwnerAt(y.daemon, b) == ""
  }

  /** Signals applied outside a refresh leave no mark, so the stale answer is applied after them. */
  lemma {:induction false} StaleAnswerWins(y: System, n: nat, b: string, old': string) returns (run: seq<Event>)
    requires Stale(y, n, b, old')
    ensures Unsettles(y, run)
    decreases |y.signals|
  {
    var now := y.tracker.clock;
    if y.signals == [] {
      LastAnswer(y, n, b, old');
      assert Unsettles(Step(y, ReplyArrives(n, {}, now)), []);
      UnsettlesThen(y, ReplyArrives(n, {}, now), []);
      run := [ReplyArrives(n, {}, now)] + [];
    } else {
      SignalTable(y, SignalArrives(now));
      var rest := StaleAnswerWins(Step(y, SignalArrives(now)), n, b, old');
      UnsettlesThen(y, SignalArrives(now), rest);
      run := [SignalArrives(now)] + rest;
    }
  }

  lemma LastAnswer(y: System, n: nat, b: string, old': string)
    requires Stale(y, n, b, old') && y.signals == []
    ensures CanHappen(y, ReplyArrives(n, {}, y.tracker.clock))
    ensures !Settled(Step(y, ReplyArrives(n, {}, y.tracker.clock)))
  {
    var s := y.tracker;
    var s1 := s.(own := s.own.(requests := s.own.requests - {n}));
    SetOwnerTable(s1, b, old', s.clock);
    var z := Step(y, ReplyArrives(n, {}, s.clock));
    assert z.signals == [] && OwnerAt(z.tracker.own.services, b) == old' && !Agrees(z, b) && !Due(z.signals, b);
  }

  /** An exposed lookup can be answered before its name loses its owner, and delivered after. */
  lemma ExposedUnsettles(y: System, n: nat, b: string) returns (run: seq<Event>)
    requires Exposed(y, n, b)
    ensures Unsettles(y, run)
  {
    if OwnerAt(y.daemon, b) == "" {
      var e := OwnerChanges(b, "new owner");
      var rest := OwnedUnsettles(Step(y, e), n, b);
      UnsettlesThen(y, e, rest);
      run := [e] + rest;
    } else {
      run := OwnedUnsettles(y, n, b);
    }
  }

  lemma OwnedUnsettles(y: System, n: nat, b: string) returns (run: seq<Event>)
    requires Exposed(y, n, b) && OwnerAt(y.daemon, b) != ""
    ensures Unsettles(y, run)
  {
    var e1, e2 := DaemonAnswers(n), OwnerChanges(b, "");
    var y1 := Step(y, e1);
    var rest := StaleAnswerWins(Step(y1, e2), n, b, y.daemon[b]);
    UnsettlesThen(y1, e2, rest);
    UnsettlesThen(y, e1, [e2] + rest);
    run := [e1] + ([e2] + rest);
  }

  lemma {:induction false} SyncedStays(y: System, run: seq<Event>)
    requires Possible(y, run) && y.synced
    ensures After(y, run).synced
    decreases |run|
  {
    if run != [] {
      SyncedStays(Step(y, run[0]), run[1..]);
    }
  }

  /** As long as no refresh of the run ends too early, it ends with the two tables settled. */
  ghost predicate StaysSettled(y: System, run: seq<Event>) {
    Possible(y, run) && WindowsStay(y, run) ==> Settled(After(y, run))
  }

  lemma KeptStaysSettled(y: System, run: seq<Event>)
    requires Inv(y) && y.synced
    ensures StaysSettled(y, run)
  {
    if Possible(y, run) && WindowsStay(y, run) {
      RunKeeps(y, run);
      SyncedStays(y, run);
      SyncedIsSettled(After(y, run));
    }
  }

  /**
   * What the window is worth, at every state the protocol can be in once some refresh was without loss: an
   * event keeps the window if and only if, whatever happens next and as long as no later refresh ends too
   * early, the tables never differ on a name without a signal still to arrive.
   */
  lemma WindowDecides(y: System, e: Event)
    requires Inv(y) && CanHappen(y, e) && y.synced && !y.tracker.own.closed
    ensures KeepsWindow(y, e) <==> forall run :: StaysSettled(Step(y, e), run)
  {
    hide Inv, Settled, WindowsStay;
    var z := Step(y, e);
    if KeepsWindow(y, e) {
      StepKeeps(y, e);
      forall run ensures StaysSettled(z, run) { KeptStaysSettled(z, run); }
    } else {
      var n, b := EarlyEndExposes(y, e);
      var run := ExposedUnsettles(z, n, b);
      assert !StaysSettled(z, run);
    }
  }

  // ---- it does happen ----

  /** A run from the start after which the next event ends a refresh too early. */
  ghost predicate LeadsToEarlyEnd(y: System, run: seq<Event>, e: Event) {
    && Possible(y, run) && WindowsStay(y, run)
    && var z := After(y, run); CanHappen(z, e) && !KeepsWindow(z, e) && z.synced && !z.tracker.own.closed
  }

  lemma LeadsThen(y: System, e1: Event, run: seq<Event>, e: Event)
    requires CanHappen(y, e1) && KeepsWindow(y, e1) && LeadsToEarlyEnd(Step(y, e1), run, e)
    ensures LeadsToEarlyEnd(y, [e1] + run, e)
  {
    Then(y, e1, run);
  }

  /** The daemon has answered with two names; nothing else is outstanding. */
  lemma TwoNamesListed(y: System, t: nat, a: string, b: string, now: real)
    requires !y.tracker.own.closed && y.tracker.own.requests == map[t := ListNames] && y.tracker.own.changed == {}
    requires y.answers == map[t := Answered(ListNames, Names({a, b}))] && y.tracker.clock <= now && y.synced
    requires IsVenus(a) && IsVenus(b) && AtMost(a, b) && a != b
    ensures LeadsToEarlyEnd(y, [], ReplyArrives(t, {a}, now))
  {
    assert VenusOnly({a, b}) - {} == {a, b} && y.tracker.own.requests - {t} == map[];
    SortedPair(a, b);
  }

  lemma SortedPair(a: string, b: string)
    requires AtMost(a, b) && a != b
    ensures Sorted({a, b}) == [a, b]
  {
    assert IsLeast(a, {a, b}) by { Total(a, a); }
    LeastUnique({a, b});
    assert Least({a, b}) == a;
    assert {a, b} - {a} == {b};
    assert Least({b}) == b && {b} - {b} == {};
    assert Sorted({b}) == [b] + Sorted({});
  }

  /** The first refresh, while the daemon has no name. */
  lemma FirstRefresh(sel: Selector)
    ensures var y := Start0(sel, map[], 0.0); var e := Starts(true, 0.0);
            Enabled(y, e) && Enabled(Step(y, e), DaemonAnswers(0))
            && Enabled(Step(Step(y, e), DaemonAnswers(0)), ReplyArrives(0, {}, 0.0))
    ensures var y := Start0(sel, map[], 0.0);
            var z := Step(Step(Step(y, Starts(true, 0.0)), DaemonAnswers(0)), ReplyArrives(0, {}, 0.0));
            Idle(z) && z.daemon == map[]
  {
    var y := Start0(sel, map[], 0.0);
    var y1 := Step(y, Starts(true, 0.0));
    assert y1.tracker.own == Ownership(map[], true, false, map[0 := ListNames], 1, true, {}, 0.0);
    var y2 := Step(y1, DaemonAnswers(0));
    var nothing: map<string, string> := map[];
    assert nothing.Keys == {} && VenusOnly({}) == {};
    assert y2.answers == map[0 := Answered(ListNames, Names({}))];
    assert Lookups(y2.tracker.own, {}) == {} && Sorted({}) == [];
    assert nothing - {} == nothing && y1.tracker.own.requests - {0} == map[];
  }

  /** A refresh without loss has ended at time zero, and no name has an owner yet. */
  ghost predicate Idle(y: System) {
    && y.tracker.own == Ownership(map[], true, false, map[], 1, false, {}, 0.0)
    && y.tracker.clock == 0.0 && y.answers == map[] && y.synced
  }

  lemma NameAppears(y: System, n: string, owner: string)
    requires Idle(y) && n !in y.daemon && owner != ""
    ensures Enabled(y, OwnerChanges(n, owner))
    ensures var z := Step(y, OwnerChanges(n, owner)); Idle(z) && z.daemon == y.daemon[n := owner]
  {
  }

  /** A stranger's batch is queued a minute later and starts the next refresh. */
  lemma StrangerRefreshes(y: System, items: Items)
    requires Idle(y) && items != map[] && |items| <= MAX_PENDING_ITEMS
    ensures var e := Submits(":1", items, None, "", true, 60.0);
            Enabled(y, e) && var z := Step(y, e);
            && z.tracker.own == Ownership(map[], true, false, map[1 := ListNames], 2, true, {}, 60.0)
            && z.tracker.clock == 60.0 && z.answers == map[] && z.synced && z.daemon == y.daemon
  {
    assert NamesOf(map[], ":1") == {};
  }

  /** Two names appear, and the second refresh lists them. */
  function TwoAppear(a: string, b: string, x: string, z: string, items: Items): seq<Event> {
    [OwnerChanges(a,
      x)] + ([OwnerChanges(b, z)] + ([Submits(":1", items, None, "", true, 60.0)] + ([DaemonAnswers(1)] + [])))
  }

  lemma TwoAppearLeads(y: System, a: string, b: string, x: string, z: string, items: Items)
    requires Idle(y) && y.daemon == map[] && items != map[] && |items| <= MAX_PENDING_ITEMS
    requires IsVenus(a) && IsVenus(b) && AtMost(a, b) && a != b && x != "" && z != ""
    ensures LeadsToEarlyEnd(y, TwoAppear(a, b, x, z, items), ReplyArrives(1, {a}, 60.0))
  {
    hide LeadsToEarlyEnd, Idle, AtMost;
    var e, submits := ReplyArrives(1, {a}, 60.0), Submits(":1", items, None, "", true, 60.0);
    NameAppears(y, a, x);
    var y1 := Step(y, OwnerChanges(a, x));
    NameAppears(y1, b, z);
    var y2 := Step(y1, OwnerChanges(b, z));
    StrangerRefreshes(y2, items);
    var y3 := Step(y2, submits);
    assert y3.daemon.Keys == {a, b};
    TwoNamesListed(Step(y3, DaemonAnswers(1)), 1, a, b, 60.0);
    LeadsThen(y3, DaemonAnswers(1), [], e);
    LeadsThen(y2, submits, [DaemonAnswers(1)] + [], e);
    LeadsThen(y1, OwnerChanges(b, z), [submits] + ([DaemonAnswers(1)] + []), e);
    LeadsThen(y, OwnerChanges(a, x), [OwnerChanges(b, z)] + ([submits] + ([DaemonAnswers(1)] + [])), e);
  }

  /** The system gets there after an ordinary start. */
  lemma EarlyEndIsReached(sel: Selector, a: string, b: string, x: string, z: string, items: Items)
    requires IsVenus(a) && IsVenus(b) && AtMost(a, b) && a != b && x != "" && z != ""
    requires items != map[] && |items| <= MAX_PENDING_ITEMS
    ensures var first := [Starts(true,
        0.0)] + ([DaemonAnswers(0)] + ([ReplyArrives(0, {}, 0.0)] + TwoAppear(a, b, x, z, items)));
            LeadsToEarlyEnd(Start0(sel, map[], 0.0), first, ReplyArrives(1, {a}, 60.0))
  {
    var y0, e, rest := Start0(sel, map[], 0.0), ReplyArrives(1, {a}, 60.0), TwoAppear(a, b, x, z, items);
    FirstRefresh(sel);
    var y1 := Step(y0, Starts(true, 0.0));
    var y2 := Step(y1, DaemonAnswers(0));
    TwoAppearLeads(Step(y2, ReplyArrives(0, {}, 0.0)), a, b, x, z, items);
    LeadsThen(y2, ReplyArrives(0, {}, 0.0), rest, e);
    LeadsThen(y1, DaemonAnswers(0), [ReplyArrives(0, {}, 0.0)] + rest, e);
    LeadsThen(y0, Starts(true, 0.0), [DaemonAnswers(0)] + ([ReplyArrives(0, {}, 0.0)] + rest), e);
  }

  lemma {:induction false} Joined(y: System, first: seq<Event>, second: seq<Event>)
    requires Possible(y, first) && Possible(After(y, first), second)
    ensures Possible(y, first + second) && After(y, first + second) == After(After(y, first), second)
    decreases |first|
  {
    hide Step, CanHappen;
    if first == [] {
      assert first + second == second;
    } else {
      Joined(Step(y, first[0]), first[1..], second);
      Then(y, first[0], first[1..] + second);
      assert first + second == [first[0]] + (first[1..] + second);
    }
  }

  /** So the agreement of the tables does fail in some run of the whole system. */
  lemma SomeRunDisagrees(sel: Selector, a: string, b: string, x: string, z: string, items: Items)
    returns (run: seq<Event>)
    requires IsVenus(a) && IsVenus(b) && AtMost(a, b) && a != b && x != "" && z != ""
    requires items != map[] && |items| <= MAX_PENDING_ITEMS
    ensures Possible(Start0(sel, map[], 0.0), run)
    ensures After(Start0(sel, map[], 0.0), run).synced && !Settled(After(Start0(sel, map[], 0.0), run))
  {
    hide Inv, Settled, KeepsWindow, CanHappen;
    var y0, e := Start0(sel, map[], 0.0), ReplyArrives(1, {a}, 60.0);
    EarlyEndIsReached(sel, a, b, x, z, items);
    var first := [Starts(true,
        0.0)] + ([DaemonAnswers(0)] + ([ReplyArrives(0, {}, 0.0)] + TwoAppear(a, b, x, z, items)));
    var y := After(y0, first);
    StartsFine(sel);
    RunKeeps(y0, first);
    var n, c := EarlyEndExposes(y, e);
    var rest := ExposedUnsettles(Step(y, e), n, c);
    Then(y, e, rest);
    Joined(y0, first, [e] + rest);
    run := first + ([e] + rest);
    SyncedStays(y, [e] + rest);
  }

  lemma StartsFine(sel: Selector)
    ensures Inv(Start0(sel, map[], 0.0))
  {
    var y0 := Start0(sel, map[], 0.0);
    assert forall n :: NameOk(y0, n);
  }
}
