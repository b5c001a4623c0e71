// What order costs when a queued batch becomes eligible and nothing replays it.
module OwnerOvertaking {
  import opened Wrappers
  import opened Selection
  import opened Batches
  import opened OwnerState
  import opened OwnerProtocol
  import opened OwnerHistory

  /** Of one sender's batches on one interface, a later one has been delivered first. */
  ghost predicate OutOfOrder(s: State) {
    var d := Delivered(s.log.delivered);
    exists j, k :: 0 <= j < k < |d| && d[j].owner == d[k].owner && d[j].iface == d[k].iface && d[j].serial > d[k].serial
  }

  /** A batch whose sender is resolved and interface selected, waiting all the same. */
  ghost predicate Waits(s: State, b: Batch, now: real) {
    b in s.pending && EligibleNow(s, b) && b.time > now - PENDING_TTL
  }

  /** It goes out as soon as its sender gets any name. */
  lemma WaitingIsHanded(s: State, b: Batch, name: string, now: real) returns (k: nat)
    requires History(s) && Waits(s, b, now) && !s.own.closed && IsVenus(name)
    ensures var d, d' := s.log.delivered, NameOwnerChanged(s, name, b.owner, now).log.delivered;
            |d| <= k < |d'| && d' == d + d'[|d|..] && d'[k].batch == b
  {
    var s' := NameOwnerChanged(s, name, b.owner, now);
    var names := NamesOf(s'.own.services, b.owner);
    assert b.owner[0] == ':';
    StillEligible(s, b, name);
    var p := Leave(s.pending, Expired(now - PENDING_TTL));
    SplitMembers(s.pending, Expired(now - PENDING_TTL), b);
    SplitMembers(p, Awaiting(b.owner, names, s.sel), b);
    var out := Handed(p, b.owner, names, s.sel);
    HandedAreTaken(p, b.owner, names, s.sel);
    assert s'.log.delivered == s.log.delivered + out;
    var i :| 0 <= i < |out| && Delivered(out)[i] == b;
    k := |s.log.delivered| + i;
  }

  lemma StillEligible(s: State, b: Batch, name: string)
    requires EligibleNow(s, b)
    ensures Select(s.sel, NamesOf(s.own.services[name := b.owner], b.owner), b.iface).Some?
  {
    var n :| n in NamesOf(s.own.services, b.owner) && Eligible(s.sel, n, b.iface);
    assert n in NamesOf(s.own.services[name := b.owner], b.owner);
  }

  /** Overtaken by its sender's next batch, it goes out after that one. */
  lemma OvertakenGoesLate(s: State, b: Batch, items: Items, correlation: Option<string>, accepted: bool, t1: real,
                          name: string, t2: real)
    requires History(s) && Waits(s, b, t2) && !s.own.closed && items != map[] && IsVenus(name) && s.clock <= t1
    ensures OutOfOrder(NameOwnerChanged(Submit(s, b.owner, items, correlation, b.iface, accepted, t1), name, b.owner,
        t2))
  {
    var s1 := Submit(s, b.owner, items, correlation, b.iface, accepted, t1);
    SubscribingLetsBatchesOvertake(s, b, items, correlation, accepted, t1);
    SubmitKeeps(s, b.owner, items, correlation, b.iface, accepted, t1);
    SubmitTableSame(s, b.owner, items, correlation, b.iface, accepted, t1);
    assert !s1.own.closed;
    var k := WaitingIsHanded(s1, b, name, t2);
    var s2 := NameOwnerChanged(s1, name, b.owner, t2);
    var d, j := Delivered(s2.log.delivered), |s1.log.delivered| - 1;
    assert s2.log.delivered[j] == s1.log.delivered[j];
    assert d[j] == Delivered(s1.log.delivered)[j] && d[k] == b;
  }

  // ---- runs ----

  ghost predicate Disorders(y: System, run: seq<Event>) {
    Possible(y, run) && WindowsStay(y, run) && OutOfOrder(After(y, run).tracker)
  }

  lemma DisordersThen(y: System, e: Event, run: seq<Event>)
    requires CanHappen(y, e) && KeepsWindow(y, e) && Disorders(Step(y, e), run)
    ensures Disorders(y, [e] + run)
  {
    Then(y, e, run);
  }

  lemma SubmittingAgain(s: State, b: Batch, items: Items)
    requires History(s) && b in s.pending && EligibleNow(s, b) && !s.own.closed && items != map[]
    ensures Submit(s, b.owner, items, None, b.iface, true, s.clock).own == s.own
    ensures Submit(s, b.owner, items, None, b.iface, true, s.clock).clock == s.clock
  {
    assert b.owner[0] == ':';
  }

  /**
   * That the queue is quiet is what order rests on: while a batch waits that could go out, the sender's next
   * batch and a new name for the sender bring two deliveries out of order.
   */
  lemma WaitingDisorders(y: System, b: Batch, items: Items, name: string) returns (run: seq<Event>)
    requires History(y.tracker) && Waits(y.tracker, b, y.tracker.clock) && items != map[] && y.signals == []
    requires y.tracker.own.started && !y.tracker.own.closed && IsVenus(name) && OwnerAt(y.daemon, name) != b.owner
    ensures Disorders(y, run)
  {
    var s, now := y.tracker, y.tracker.clock;
    var e1, e2, e3 := Submits(b.owner, items, None, b.iface, true, now), OwnerChanges(name, b.owner),
        SignalArrives(now);
    SubmittingAgain(s, b, items);
    OvertakenGoesLate(s, b, items, None, true, now, name, now);
    var y1 := Step(y, e1);
    var y2 := Step(y1, e2);
    var y3 := Step(y2, e3);
    assert y2.signals == [Signal(name, b.owner)];
    assert Disorders(y3, []);
    DisordersThen(y2, e3, []);
    DisordersThen(y1, e2, [e3] + []);
    DisordersThen(y, e1, [e2] + ([e3] + []));
    run := [e1] + ([e2] + ([e3] + []));
  }

  /** Nobody has a subscription yet. */
  const NOBODY := Subscribed(false, {})

  /** The first batch of an unknown sender. */
  function FirstBatch(sender: string, items: Items, iface: string): Batch { Batch(0, 0.0, sender, items, None, iface) }

  ghost predicate Queued(y: System, b: Batch, services: map<string, string>) {
    var s := y.tracker;
    && s.pending == [b] && s.own.services == services && s.own.started && !s.own.closed && s.clock == b.time
    && History(s) && y.signals == []
  }

  lemma NothingYet()
    ensures History(Start0(NOBODY, map[], 0.0).tracker)
  {
  }

  lemma FirstIsQueued(sender: string, items: Items, iface: string)
    requires ":" <= sender && items != map[] && |items| <= MAX_PENDING_ITEMS
    ensures var y, e := Start0(NOBODY, map[], 0.0), Submits(sender, items, None, iface, true, 0.0);
            CanHappen(y, e) && Queued(Step(y, e), FirstBatch(sender, items, iface), map[])
            && Step(y, e).daemon == map[] && Step(y, e).tracker.sel == NOBODY
  {
    hide Accounted, Numbered, ByTime;
    assert NamesOf(map[], sender) == {} && sender[0] == ':';
    NothingYet();
    StepHistory(Start0(NOBODY, map[], 0.0), Submits(sender, items, None, iface, true, 0.0));
  }

  /** The sender gets a name, and as nobody has subscribed the batch stays queued. */
  lemma NameIsFound(y: System, b: Batch, name: string)
    requires Queued(y, b, map[]) && y.tracker.sel == NOBODY && y.daemon == map[] && IsVenus(name) && b.owner != ""
    ensures var e1, e2 := OwnerChanges(name, b.owner), SignalArrives(b.time);
            CanHappen(y, e1) && CanHappen(Step(y, e1), e2)
            && var z := Step(Step(y, e1), e2);
               Queued(z, b, map[name := b.owner]) && z.daemon == map[name := b.owner] && z.tracker.sel == NOBODY
  {
    hide Accounted, Numbered, Bounded;
    var y1 := Step(y, OwnerChanges(name, b.owner));
    StepHistory(y1, SignalArrives(b.time));
    NothingHanded(b, NamesOf(map[name := b.owner], b.owner), b.time);
  }

  lemma NothingHanded(b: Batch, names: set<string>, now: real)
    requires b.time == now
    ensures Leave([b], Expired(now - PENDING_TTL)) == [b] && Take([b], Expired(now - PENDING_TTL)) == []
    ensures Leave([b], Awaiting(b.owner, names, NOBODY)) == [b] && Handed([b], b.owner, names, NOBODY) == []
  {
    assert [b][1..] == [];
  }

  /** Subscribing to the name leaves the batch waiting. */
  lemma SubscribedWaits(y: System, b: Batch, name: string)
    requires Queued(y, b, map[name := b.owner]) && y.tracker.sel == NOBODY
    ensures var z := Step(y, Subscribes(Subscribed(false, {Subscription(name, b.iface, "/")})));
            && Queued(z, b, map[name := b.owner]) && z.daemon == y.daemon && Waits(z.tracker, b, z.tracker.clock)
  {
    var sel := Subscribed(false, {Subscription(name, b.iface, "/")});
    assert name in NamesOf(map[name := b.owner], b.owner);
    assert Subscription(name, b.iface, "/") in sel.subscriptions && Eligible(sel, name, b.iface);
    StepHistory(y, Subscribes(sel));
  }

  /**
   * A run from the start in which order fails: a batch is queued, its sender resolved, its interface
   * subscribed to, and then a later batch is delivered before it. No refresh in it ends too early.
   */
  lemma SomeRunDisorders(sender: string, items: Items, iface: string, name: string, other: string)
    returns (run: seq<Event>)
    requires ":" <= sender && items != map[] && |items| <= MAX_PENDING_ITEMS
    requires IsVenus(name) && IsVenus(other) && name != other
    ensures Disorders(Start0(NOBODY, map[], 0.0), run)
  {
    hide Disorders, Queued, Waits;
    var y0, b := Start0(NOBODY, map[], 0.0), FirstBatch(sender, items, iface);
    var e1, e2, e3 := Submits(sender, items, None, iface, true, 0.0), OwnerChanges(name, sender), SignalArrives(0.0);
    var e4 := Subscribes(Subscribed(false, {Subscription(name, iface, "/")}));
    FirstIsQueued(sender, items, iface);
    var y1 := Step(y0, e1);
    NameIsFound(y1, b, name);
    var y2 := Step(y1, e2);
    var y3 := Step(y2, e3);
    SubscribedWaits(y3, b, name);
    var rest := QueuedDisorders(Step(y3, e4), b, name, items, other);
    DisordersThen(y3, e4, rest);
    DisordersThen(y2, e3, [e4] + rest);
    DisordersThen(y1, e2, [e3] + ([e4] + rest));
    DisordersThen(y0, e1, [e2] + ([e3] + ([e4] + rest)));
    run := [e1] + ([e2] + ([e3] + ([e4] + rest)));
  }

  lemma QueuedDisorders(y: System, b: Batch, name: string, items: Items, other: string) returns (run: seq<Event>)
    requires Queued(y, b, map[name := b.owner]) && Waits(y.tracker, b, y.tracker.clock) && b.owner != ""
    requires y.daemon == map[name := b.owner] && items != map[] && IsVenus(other) && name != other
    ensures Disorders(y, run)
  {
    run := WaitingDisorders(y, b, items, other);
  }
}
