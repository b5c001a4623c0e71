// What becomes of every batch ever submitted: nothing is lost, duplicated or reordered.
module OwnerHistory {
  import opened Wrappers
  import opened Sequences
  import opened Lexicographic
  import opened Selection
  import opened Batches
  import opened OwnerState
  import opened OwnerProtocol

  /** Every submission is delivered, counted dropped, ignored, discarded by stop or still queued, once. */
  ghost predicate Accounted(s: State) {
    multiset(s.log.submitted) ==
      multiset(Delivered(s.log.delivered)) + multiset(s.log.expired) + multiset(s.log.overflowed)
      + multiset(s.log.ignored) + multiset(s.log.discarded) + multiset(s.pending)
  }

  /** Serial numbers are positions, so that no two submissions are alike. */
  ghost predicate Numbered(submitted: seq<Batch>) {
    forall i :: 0 <= i < |submitted| ==> submitted[i].serial == i
  }

  ghost predicate Bounded(s: State) {
    && |s.pending| <= MAX_PENDING_BATCHES && ItemCount(s.pending) <= MAX_PENDING_ITEMS
    && ByTime(s.pending, s.clock)
    && forall b :: b in s.pending ==> ":" <= b.owner
  }

  ghost predicate History(s: State) {
    Accounted(s) && Numbered(s.log.submitted) && Bounded(s)
  }

  ghost predicate EligibleNow(s: State, b: Batch) {
    Select(s.sel, NamesOf(s.own.services, b.owner), b.iface).Some?
  }

  /** No queued batch could go out under a name its sender is known to own. */
  ghost predicate Quiet(s: State) {
    forall b :: b in s.pending ==> !EligibleNow(s, b)
  }

  /** What was and will be delivered of a channel, in order. */
  ghost function Line(s: State, owner: string, iface: string): seq<Batch> {
    Channel(Delivered(s.log.delivered) + s.pending, owner, iface)
  }

  ghost predicate Ordered(s: State) {
    forall o, i :: Rising(Line(s, o, i))
  }

  ghost predicate Orderly(s: State) { Quiet(s) && Ordered(s) }

  // ---- the queue ----

  lemma ExpireKeeps(s: State, now: real)
    requires History(s)
    ensures var s' := Expire(s, now);
            && History(s') && s'.clock == s.clock
            && (Ordered(s) ==> Ordered(s')) && (Quiet(s) ==> Quiet(s'))
            && forall b :: b in s'.pending <==> b in s.pending && b.time > now - PENDING_TTL
  {
    var test := Expired(now - PENDING_TTL);
    var s' := Expire(s, now);
    SplitConserves(s.pending, test);
    SplitCounts(s.pending, test);
    LeaveByTime(s.pending, s.clock, test);
    forall b ensures b in s'.pending <==> b in s.pending && b.time > now - PENDING_TTL {
      SplitMembers(s.pending, test, b);
    }
    if Quiet(s) {
      forall b | b in s'.pending ensures !EligibleNow(s', b) { assert !EligibleNow(s, b); }
    }
    if Ordered(s) {
      forall o, i ensures Rising(Line(s', o, i)) {
        assert Rising(Line(s, o, i));
        ChannelFilterRises(Delivered(s.log.delivered), s.pending, test, o, i);
      }
    }
  }

  lemma DeliveredConcat(a: seq<Delivery>, b: seq<Delivery>)
    ensures Delivered(a + b) == Delivered(a) + Delivered(b)
  {
  }

  /** Replay hands out exactly the batches that became eligible and leaves the queue quiet. */
  lemma ReplayKeeps(s: State, owner: string, now: real)
    requires History(s)
    ensures var s' := Replay(s, owner, now);
            && History(s') && s'.own == s.own && s'.clock == s.clock
            && (Ordered(s) ==> Ordered(s'))
            && ((forall b :: b in s.pending && b.owner != owner ==> !EligibleNow(s, b)) ==> Quiet(s'))
  {
    ReplayKeepsHistory(s, owner, now);
    ExpireKeeps(s, now);
    var s1, s' := Expire(s, now), Replay(s, owner, now);
    if forall b :: b in s.pending && b.owner != owner ==> !EligibleNow(s, b) {
      ReplayQuiets(s, owner, now);
    }
    if Ordered(s) {
      forall o, i ensures Rising(Line(s', o, i)) { ReplayLine(s1, owner, o, i); }
    }
  }

  /** With only this sender's batches possibly eligible, none is after the replay. */
  lemma ReplayQuiets(s: State, owner: string, now: real)
    requires History(s) && forall b :: b in s.pending && b.owner != owner ==> !EligibleNow(s, b)
    ensures Quiet(Replay(s, owner, now))
  {
    var s1, s' := Expire(s, now), Replay(s, owner, now);
    var test := Awaiting(owner, NamesOf(s.own.services, owner), s.sel);
    forall b | b in s'.pending ensures !EligibleNow(s', b) {
      SplitMembers(s1.pending, test, b);
      SplitMembers(s.pending, Expired(now - PENDING_TTL), b);
      assert b in s.pending && !Holds(test, b);
    }
  }

  lemma ReplayAccounts(s: State, owner: string, names: set<string>)
    requires Accounted(s)
    ensures Accounted(Deliver(Handed(s.pending, owner, names, s.sel),
                              s.(pending := Leave(s.pending, Awaiting(owner, names, s.sel)))))
  {
    hide Take, Leave, Handed;
    HandedAreTaken(s.pending, owner, names, s.sel);
    DeliveredConcat(s.log.delivered, Handed(s.pending, owner, names, s.sel));
    SplitConserves(s.pending, Awaiting(owner, names, s.sel));
  }

  lemma ReplayKeepsHistory(s: State, owner: string, now: real)
    requires History(s)
    ensures History(Replay(s, owner, now))
  {
    hide Take, Leave, Handed, Accounted, ItemCount, ByTime;
    ExpireKeeps(s, now);
    var s1, s' := Expire(s, now), Replay(s, owner, now);
    var names := NamesOf(s.own.services, owner);
    var test := Awaiting(owner, names, s.sel);
    ReplayAccounts(s1, owner, names);
    SplitConserves(s1.pending, test);
    SplitCounts(s1.pending, test);
    LeaveByTime(s1.pending, s1.clock, test);
    forall b ensures b in s'.pending ==> b in s1.pending { SplitMembers(s1.pending, test, b); }
  }

  /** A replay moves batches from the queue to the deliveries without moving them within their channel. */
  lemma ReplayLine(s: State, owner: string, o: string, i: string)
    ensures var names := NamesOf(s.own.services, owner);
            var out := Handed(s.pending, owner, names, s.sel);
            Channel(Delivered(s.log.delivered + out) + Leave(s.pending, Awaiting(owner, names, s.sel)), o, i)
              == Line(s, o, i)
  {
    var names := NamesOf(s.own.services, owner);
    var test := Awaiting(owner, names, s.sel);
    var done, out, left := Delivered(s.log.delivered), Take(s.pending, test), Leave(s.pending, test);
    HandedAreTaken(s.pending, owner, names, s.sel);
    DeliveredConcat(s.log.delivered, Handed(s.pending, owner, names, s.sel));
    ReplayKeepsChannel(s.pending, test, o, i);
    ChannelConcat(done, s.pending, o, i);
    ChannelConcat(done + out, left, o, i);
    ChannelConcat(done, out, o, i);
    Assoc(Channel(done, o, i), Channel(out, o, i), Channel(left, o, i));
  }

  // ---- the owner table ----

  lemma FewerNamesStayQuiet(s: State, s': State)
    requires Quiet(s) && s'.pending == s.pending && s'.sel == s.sel
    requires forall o :: NamesOf(s'.own.services, o) <= NamesOf(s.own.services, o)
    ensures Quiet(s')
  {
    forall b | b in s'.pending ensures !EligibleNow(s', b) { assert !EligibleNow(s, b); }
  }

  lemma SameBatches(s: State, s': State)
    requires History(s) && s'.pending == s.pending && s'.clock >= s.clock
    requires s'.log == s.log.(invalidated := s'.log.invalidated)
    ensures History(s') && (Ordered(s) ==> Ordered(s'))
    ensures s'.sel == s.sel && s'.own.services == s.own.services && Quiet(s) ==> Quiet(s')
  {
    ByTimeLater(s.pending, s.clock, s'.clock);
    if Ordered(s) {
      forall o, i ensures Rising(Line(s', o, i)) { assert Line(s', o, i) == Line(s, o, i); }
    }
    if s'.sel == s.sel && s'.own.services == s.own.services && Quiet(s) {
      FewerNamesStayQuiet(s, s');
    }
  }

  lemma SetOwnerKeeps(s: State, name: string, owner: string, now: real)
    requires History(s)
    ensures var s' := SetOwner(s, name, owner, now);
            History(s') && s'.clock == s.clock && (Orderly(s) ==> Orderly(s'))
  {
    var s1 := Rebind(s, name, owner);
    SameBatches(s, s1);
    forall o ensures o != owner ==> NamesOf(s1.own.services, o) <= NamesOf(s.own.services, o) {}
    if owner == "" {
      forall o ensures NamesOf(s1.own.services, o) <= NamesOf(s.own.services, o) {}
      if Quiet(s) { FewerNamesStayQuiet(s, s1); }
    } else {
      if Quiet(s) {
        forall b | b in s1.pending && b.owner != owner ensures !EligibleNow(s1, b) { assert !EligibleNow(s, b); }
      }
      ReplayKeeps(s1, owner, now);
    }
  }

  // ---- callbacks ----

  lemma LookUpTable(o: Ownership, names: seq<string>, raised: set<string>, now: real)
    ensures LookUp(o, names, raised, now).services == o.services
    decreases |names|
  {
    if names != [] {
      LookUpTable(CallDaemon(o, GetNameOwner(names[0]), names[0] !in raised, now), names[1..], raised, now);
    }
  }

  lemma CompleteKeeps(s: State, token: nat, request: Request, reply: Reply, raised: set<string>, now: real)
    requires History(s) && Fits(request, reply) && s.clock <= now
    ensures var s' := Complete(s, token, request, reply, raised, now);
            History(s') && (Orderly(s) ==> Orderly(s'))
  {
    var s' := Complete(s, token, request, reply, raised, now);
    if s.own.closed {
      SameBatches(s, s');
    } else {
      var s1 := s.(own := s.own.(requests := s.own.requests - {token}), clock := now);
      SameBatches(s, s1);
      var s2 := Answer(s1, request, reply, raised, now);
      match reply {
        case Error => SameBatches(s1, s2);
        case Owner(owner) => if request.name !in s1.own.changed { SetOwnerKeeps(s1, request.name, owner, now); }
        case Names(names) =>
          SameBatches(s1, s2);
          var gone := s1.own.services.Keys - VenusOnly(names) - s1.own.changed;
          LookUpTable(Forget(s1, gone).own, Sorted(VenusOnly(names) - s1.own.changed), raised, now);
          assert s2.own.services == s1.own.services - gone;
          forall o ensures NamesOf(s2.own.services, o) <= NamesOf(s1.own.services, o) {}
          if Quiet(s1) { FewerNamesStayQuiet(s1, s2); }
      }
      SameBatches(s2, s');
    }
  }

  lemma SignalKeeps(s: State, name: string, owner: string, now: real)
    requires History(s) && s.clock <= now
    ensures var s' := NameOwnerChanged(s, name, owner, now);
            History(s') && (Orderly(s) ==> Orderly(s'))
  {
    var changed := if s.own.refreshing then s.own.changed + {name} else s.own.changed;
    SameBatches(s, s.(clock := now));
    SameBatches(s, s.(own := s.own.(changed := changed), clock := now));
    if !s.own.closed && IsVenus(name) {
      SetOwnerKeeps(s.(own := s.own.(changed := changed), clock := now), name, owner, now);
    }
  }

  // ---- new batches ----

  /** Serial numbers in the log and the queue are those of past submissions. */
  lemma PastSerials(s: State, b: Batch)
    requires Accounted(s) && Numbered(s.log.submitted)
    requires b in Delivered(s.log.delivered) || b in s.pending
    ensures b.serial < |s.log.submitted| && s.log.submitted[b.serial] == b
  {
    assert b in multiset(Delivered(s.log.delivered)) || b in multiset(s.pending);
    assert b in multiset(s.log.submitted);
    assert b in s.log.submitted;
  }

  lemma NewestLast(p: seq<Batch>, b: Batch, o: string, i: string)
    requires Rising(Channel(p, o, i)) && forall x :: x in p ==> x.serial < b.serial
    ensures Rising(Channel(p + [b], o, i))
  {
    ChannelConcat(p, [b], o, i);
    forall x | x in Channel(p, o, i) ensures x.serial < b.serial { ChannelMembers(p, o, i, x); }
  }

  /** A batch delivered at once overtakes nothing if the queue holds nothing of its channel. */
  lemma NewestFirst(d: seq<Batch>, p: seq<Batch>, b: Batch, o: string, i: string)
    requires Rising(Channel(d + p, o, i)) && forall x :: x in d ==> x.serial < b.serial
    requires b.owner == o && b.iface == i ==> forall x :: x in p ==> x.owner != o || x.iface != i
    ensures Rising(Channel(d + [b] + p, o, i))
  {
    ChannelConcat(d, p, o, i);
    ChannelConcat(d + [b], p, o, i);
    ChannelConcat(d, [b], o, i);
    if b.owner == o && b.iface == i {
      forall x | x in p ensures x !in Channel(p, o, i) { ChannelMembers(p, o, i, x); }
      if Channel(p, o, i) != [] {
        ChannelMembers(p, o, i, Channel(p, o, i)[0]);
      }
      assert Channel(d, o, i) + [] == Channel(d, o, i);
      RisingPrefix(Channel(d, o, i), Channel(p, o, i));
      NewestLast(d, b, o, i);
    } else {
      assert Channel(d + [b], o, i) == Channel(d, o, i);
    }
  }

  lemma RisingPrefix(a: seq<Batch>, c: seq<Batch>)
    requires Rising(a + c)
    ensures Rising(a)
  {
    forall j, k | 0 <= j < k < |a| ensures a[j].serial < a[k].serial {
      assert (a + c)[j] == a[j] && (a + c)[k] == a[k];
    }
  }

  lemma DeliverKeeps(s: State, b: Batch, service: string)
    requires History(s) && b.serial == |s.log.submitted|
    requires IsVenus(b.owner) || EligibleNow(s, b)
    ensures var s' := Deliver([Delivery(service, b)], s.(log := s.log.(submitted := s.log.submitted + [b])));
            History(s') && (Orderly(s) ==> Orderly(s'))
  {
    var s' := Deliver([Delivery(service, b)], s.(log := s.log.(submitted := s.log.submitted + [b])));
    DeliveredConcat(s.log.delivered, [Delivery(service, b)]);
    assert Delivered([Delivery(service, b)]) == [b];
    forall i | 0 <= i < |s'.log.submitted| ensures s'.log.submitted[i].serial == i {
      assert i < |s.log.submitted| ==> s'.log.submitted[i] == s.log.submitted[i];
    }
    if Orderly(s) {
      var d := Delivered(s.log.delivered);
      forall o, i ensures Rising(Line(s', o, i)) {
        assert Rising(Line(s, o, i));
        forall x | x in d ensures x.serial < b.serial { PastSerials(s, x); }
        forall x | x in s.pending && b.owner == o && b.iface == i ensures x.owner != o || x.iface != i {
          assert !EligibleNow(s, x);
          assert x.owner[0] == ':';
        }
        NewestFirst(d, s.pending, b, o, i);
      }
      assert Quiet(s') by { forall x | x in s'.pending ensures !EligibleNow(s', x) { assert !EligibleNow(s, x); } }
    }
  }

  /** A batch that is neither delivered nor queued leaves order and queue alone. */
  lemma SetAsideKeeps(s: State, s': State, b: Batch)
    requires History(s) && b.serial == |s.log.submitted|
    requires s' == s.(log := s.log.(submitted := s.log.submitted + [b], overflowed := s.log.overflowed + [b]))
          || s' == s.(log := s.log.(submitted := s.log.submitted + [b], ignored := s.log.ignored + [b]))
    ensures History(s') && (Orderly(s) ==> Orderly(s'))
  {
    hide Channel, Rising, ByTime, ItemCount, EligibleNow;
    forall i | 0 <= i < |s'.log.submitted| ensures s'.log.submitted[i].serial == i {
      assert i < |s.log.submitted| ==> s'.log.submitted[i] == s.log.submitted[i];
    }
    if Orderly(s) {
      forall o, i ensures Rising(Line(s', o, i)) { assert Line(s', o, i) == Line(s, o, i); }
      FewerNamesStayQuiet(s, s');
    }
  }

  lemma {:induction false} ByTimeTail(p: seq<Batch>, latest: real, k: nat)
    requires ByTime(p, latest) && k <= |p|
    ensures ByTime(p[k..], latest)
  {
    if k == 0 {
      assert p[0..] == p;
    } else {
      ByTimeTail(p[1..], latest, k - 1);
      assert p[1..][k - 1..] == p[k..];
    }
  }

  /** The queue with its first batches dropped for room and a new one at its end. */
  ghost function Appended(s: State, b: Batch): State {
    var k := Excess(s.pending, |b.changed|);
    s.(pending := s.pending[k..] + [b],
       log := s.log.(submitted := s.log.submitted + [b], overflowed := s.log.overflowed + s.pending[..k]))
  }

  lemma AppendKeepsBounds(s: State, b: Batch)
    requires Bounded(s) && b.time == s.clock && ":" <= b.owner && |b.changed| <= MAX_PENDING_ITEMS
    ensures Bounded(Appended(s, b))
  {
    var k := Excess(s.pending, |b.changed|);
    ExcessIsLeast(s.pending, |b.changed|, k);
    ItemCountConcat(s.pending[k..], [b]);
    ByTimeTail(s.pending, s.clock, k);
    ByTimeAppend(s.pending[k..], s.clock, b);
  }

  lemma AppendKeepsHistory(s: State, b: Batch)
    requires History(s) && b.serial == |s.log.submitted| && b.time == s.clock && ":" <= b.owner
    requires |b.changed| <= MAX_PENDING_ITEMS
    ensures History(Appended(s, b))
  {
    hide Bounded, Excess;
    var k := Excess(s.pending, |b.changed|);
    var s' := Appended(s, b);
    AppendKeepsBounds(s, b);
    assert s.pending == s.pending[..k] + s.pending[k..];
    forall i | 0 <= i < |s'.log.submitted| ensures s'.log.submitted[i].serial == i {
      assert i < |s.log.submitted| ==> s'.log.submitted[i] == s.log.submitted[i];
    }
  }

  lemma AppendKeepsOrder(s: State, b: Batch)
    requires History(s) && Orderly(s) && b.serial == |s.log.submitted| && !EligibleNow(s, b)
    ensures Orderly(Appended(s, b))
  {
    hide Channel, Accounted, Numbered, Bounded, Rising, Excess;
    var k := Excess(s.pending, |b.changed|);
    var d, tail := Delivered(s.log.delivered), s.pending[k..];
    var s' := Appended(s, b);
    assert s.pending == s.pending[..k] + tail;
    forall o, i ensures Rising(Line(s', o, i)) {
      assert Rising(Line(s, o, i));
      ChannelTailRises(d, s.pending, k, o, i);
      forall x: Batch | x in d + tail ensures x.serial < b.serial { PastSerials(s, x); }
      NewestLast(d + tail, b, o, i);
      assert d + tail + [b] == d + (tail + [b]);
    }
    forall x | x in s'.pending ensures !EligibleNow(s', x) {
      if x in tail { assert !EligibleNow(s, x); } else { assert x == b && !EligibleNow(s, b); }
    }
  }

  lemma EnqueueKeeps(s: State, b: Batch, accepted: bool, now: real)
    requires History(s) && b.serial == |s.log.submitted| && b.time == s.clock == now && ":" <= b.owner
    requires !EligibleNow(s, b)
    ensures var s' := Enqueue(s.(log := s.log.(submitted := s.log.submitted + [b])), b, accepted, now);
            History(s') && (Orderly(s) ==> Orderly(s'))
  {
    hide History, Ordered, Quiet, Take, Leave, Excess;
    var own1 := Start(s.own, accepted, now);
    var s1 := s.(own := own1);
    SameBatches(s, s1);
    ExpireKeeps(s1, now);
    var s2 := Expire(s1, now);
    var t2 := Expire(s1.(log := s1.log.(submitted := s1.log.submitted + [b])), now);
    assert t2 == s2.(log := s2.log.(submitted := s2.log.submitted + [b]));
    var s' := Enqueue(s.(log := s.log.(submitted := s.log.submitted + [b])), b, accepted, now);
    if |b.changed| > MAX_PENDING_ITEMS {
      SetAsideKeeps(s2, s', b);
    } else {
      AppendKeepsHistory(s2, b);
      if Orderly(s) {
        AppendKeepsOrder(s2, b);
      }
      var s3 := Appended(s2, b);
      assert s' == s3.(own := Refresh(s3.own, accepted, now));
      SameBatches(s3, s');
    }
  }

  lemma SubmitKeeps(s: State, owner: string, items: Items, correlation: Option<string>, iface: string,
                    accepted: bool, now: real)
    requires History(s) && s.clock <= now
    ensures var s' := Submit(s, owner, items, correlation, iface, accepted, now);
            History(s') && (Orderly(s) ==> Orderly(s'))
  {
    var s0 := s.(clock := now);
    SameBatches(s, s0);
    if !s.own.closed && items != map[] {
      var b := Batch(|s.log.submitted|, now, owner, items, correlation, iface);
      var names := if IsVenus(owner) then {owner} else NamesOf(s.own.services, owner);
      var s' := Submit(s, owner, items, correlation, iface, accepted, now);
      match Select(s.sel, names, iface)
      case Some(service) => DeliverKeeps(s0, b, service);
      case None =>
        if IsVenus(owner) || !(":" <= owner) {
          SetAsideKeeps(s0, s', b);
        } else {
          EnqueueKeeps(s0, b, accepted, now);
        }
    }
  }

  lemma TickKeeps(s: State, accepted: bool, now: real)
    requires History(s) && s.clock <= now
    ensures var s' := Tick(s, accepted, now);
            History(s') && (Orderly(s) ==> Orderly(s'))
            && (!s.own.closed ==> forall b :: b in s'.pending ==> b.time > now - PENDING_TTL)
  {
    hide History, Ordered, Quiet, Take, Leave;
    var s0 := s.(clock := now);
    SameBatches(s, s0);
    if !s.own.closed {
      var s' := Tick(s, accepted, now);
      ExpireKeeps(s0, now);
      assert s' == Expire(s0, now).(own := s'.own);
      SameBatches(Expire(s0, now), s');
    }
  }

  lemma StopKeeps(s: State)
    requires History(s)
    ensures var s' := Stop(s);
            History(s') && (Ordered(s) ==> Orderly(s'))
            && s'.pending == [] && s'.own.services == map[] && s'.own.requests == map[]
  {
    var s' := Stop(s);
    if Ordered(s) {
      var d := Delivered(s.log.delivered);
      forall o, i ensures Rising(Line(s', o, i)) {
        assert Rising(Line(s, o, i));
        ChannelTailRises(d, s.pending, |s.pending|, o, i);
      }
    }
  }

  // ---- whole runs ----

  lemma StepHistory(y: System, e: Event)
    requires History(y.tracker) && CanHappen(y, e)
    ensures History(Step(y, e).tracker)
    ensures !e.Subscribes? && Orderly(y.tracker) ==> Orderly(Step(y, e).tracker)
  {
    hide History;
    var s := y.tracker;
    match e
    case OwnerChanges(_, _) =>
    case DaemonAnswers(_) =>
    case SignalArrives(now) => SignalKeeps(s, y.signals[0].name, y.signals[0].owner, now);
    case ReplyArrives(token, raised, now) =>
      CompleteKeeps(s, token, y.answers[token].request, y.answers[token].reply, raised, now);
    case TimesOut(token, now) => CompleteKeeps(s, token, s.own.requests[token], Error, {}, now);
    case Starts(accepted, now) => SameBatches(s, Step(y, e).tracker);
    case Submits(owner, items, correlation, iface, accepted, now) =>
      SubmitKeeps(s, owner, items, correlation, iface, accepted, now);
    case Ticks(accepted, now) => TickKeeps(s, accepted, now);
    case Subscribes(sel) => SameBatches(s, s.(sel := sel));
    case Stops => StopKeeps(s);
  }

  /** A run in which no change of subscriptions makes a batch already queued eligible. */
  ghost predicate Steady(y: System, run: seq<Event>)
    requires Possible(y, run)
    decreases |run|
  {
    run == [] ||
    ((run[0].Subscribes? ==> Quiet(Step(y, run[0]).tracker)) && Steady(Step(y, run[0]), run[1..]))
  }

  lemma {:induction false} RunHistory(y: System, run: seq<Event>)
    requires History(y.tracker) && Possible(y, run)
    ensures History(After(y, run).tracker)
    ensures Steady(y, run) && Orderly(y.tracker) ==> Orderly(After(y, run).tracker)
    decreases |run|
  {
    if run != [] {
      var e := run[0];
      StepHistory(y, e);
      if e.Subscribes? && Ordered(y.tracker) {
        forall o, i ensures Rising(Line(Step(y, e).tracker, o, i)) {
          assert Line(Step(y, e).tracker, o, i) == Line(y.tracker, o, i);
        }
      }
      RunHistory(Step(y, e), run[1..]);
    }
  }

  /**
   * Conservation over every run: each submitted batch is exactly once delivered, dropped as expired
   * or by overflow, ignored, discarded by stop or still queued, and the queue keeps its limits.
   */
  lemma EveryBatchAccountedFor(sel: Selector, daemon: map<string, string>, now: real, run: seq<Event>)
    requires Possible(Start0(sel, daemon, now), run)
    ensures var s := After(Start0(sel, daemon, now), run).tracker;
            && Accounted(s) && Numbered(s.log.submitted)
            && |s.pending| <= MAX_PENDING_BATCHES && ItemCount(s.pending) <= MAX_PENDING_ITEMS
  {
    RunHistory(Start0(sel, daemon, now), run);
  }

  /**
   * Order over every steady run: of one sender's batches on one interface, whichever is delivered
   * first was submitted first, at once or by replay; and none is left queued that could go out.
   */
  lemma DeliveredInOrder(sel: Selector, daemon: map<string, string>, now: real, run: seq<Event>, j: nat, k: nat)
    requires Possible(Start0(sel, daemon, now), run) && Steady(Start0(sel, daemon, now), run)
    ensures var s := After(Start0(sel, daemon, now), run).tracker;
            var d := Delivered(s.log.delivered);
            && Quiet(s)
            && (j < k < |d| && d[j].owner == d[k].owner && d[j].iface == d[k].iface ==>
                  d[j].serial < d[k].serial < |s.log.submitted|
                  && s.log.submitted[d[j].serial] == d[j] && s.log.submitted[d[k].serial] == d[k])
  {
    var y0 := Start0(sel, daemon, now);
    assert Orderly(y0.tracker);
    RunHistory(y0, run);
    var s := After(y0, run).tracker;
    var d := Delivered(s.log.delivered);
    if j < k < |d| && d[j].owner == d[k].owner && d[j].iface == d[k].iface {
      PastSerials(s, d[j]);
      PastSerials(s, d[k]);
      var o, i := d[k].owner, d[k].iface;
      assert Rising(Line(s, o, i));
      ChannelConcat(d, s.pending, o, i);
      RisingPrefix(Channel(d, o, i), Channel(s.pending, o, i));
      ChannelOrders(d, j, k);
    }
  }

  /** What the new subscription makes eligible. */
  lemma NewlyEligible(s: State, x: Subscription, b: Batch)
    requires s.sel.Subscribed? && !EligibleNow(s, b)
    ensures var s' := s.(sel := s.sel.(subscriptions := s.sel.subscriptions + {x}));
            EligibleNow(s', b) <==>
              x.service in s.own.services && b.owner == s.own.services[x.service] && b.iface == x.iface
  {
    var sel' := s.sel.(subscriptions := s.sel.subscriptions + {x});
    var names := NamesOf(s.own.services, b.owner);
    assert x in sel'.subscriptions;
    forall n | n in names ensures Eligible(sel', n, b.iface) <==> n == x.service && b.iface == x.iface {
      assert !Eligible(s.sel, n, b.iface);
    }
    assert x.service in names <==> x.service in s.own.services && b.owner == s.own.services[x.service];
  }

  /**
   * Exactly when adding one subscription keeps the queue quiet: not while the service it names is
   * already resolved and its owner has a batch of that interface waiting.
   */
  lemma SubscribingKeepsQuiet(s: State, x: Subscription)
    requires Quiet(s) && s.sel.Subscribed?
    ensures var s' := s.(sel := s.sel.(subscriptions := s.sel.subscriptions + {x}));
            Quiet(s') <==>
              !(x.service in s.own.services
                && exists b :: b in s.pending && b.owner == s.own.services[x.service] && b.iface == x.iface)
  {
    forall b | b in s.pending { NewlyEligible(s, x, b); }
  }

  /**
   * Exactly when subscribing to everything does: not while some sender that owns any name has a batch of
   * bus items waiting. Earlier subscriptions make this possible.
   */
  lemma SubscribingGloballyKeepsQuiet(s: State)
    requires Quiet(s) && s.sel.Subscribed?
    ensures Quiet(s.(sel := s.sel.(everything := true))) <==>
              !exists b :: b in s.pending && b.iface == "com.victronenergy.BusItem"
                           && NamesOf(s.own.services, b.owner) != {}
  {
    var s' := s.(sel := s.sel.(everything := true));
    forall b | b in s.pending
      ensures EligibleNow(s', b) <==> b.iface == BUS_ITEM_INTERFACE && NamesOf(s.own.services, b.owner) != {}
    {
      assert !EligibleNow(s, b);
      var names := NamesOf(s.own.services, b.owner);
      if names != {} && b.iface == BUS_ITEM_INTERFACE {
        var n :| n in names;
        assert Eligible(s'.sel, n, b.iface);
      }
      forall n | n in names && b.iface != BUS_ITEM_INTERFACE
        ensures Eligible(s'.sel, n, b.iface) <==> Eligible(s.sel, n, b.iface) {}
    }
  }

  /**
   * What an unsteady run costs: subscribing does not replay, so a batch that became eligible in the
   * queue is overtaken by the next one its sender submits on that interface.
   */
  lemma SubscribingLetsBatchesOvertake(s: State, b: Batch, items: Items, correlation: Option<string>, accepted: bool,
                                       now: real)
    requires History(s) && b in s.pending && EligibleNow(s, b) && !s.own.closed && items != map[]
    ensures var s' := Submit(s, b.owner, items, correlation, b.iface, accepted, now);
            var d := Delivered(s'.log.delivered);
            && b in s'.pending
            && |d| == |s.log.delivered| + 1 && d[|d| - 1].owner == b.owner && d[|d| - 1].iface == b.iface
            && b.serial < d[|d| - 1].serial
  {
    PastSerials(s, b);
    assert b.owner[0] == ':';
  }

  lemma SetOwnerDelivers(s: State, name: string, owner: string, now: real, d: Delivery)
    requires History(s) && d in SetOwner(s, name, owner, now).log.delivered[|s.log.delivered|..]
    ensures d.batch in s.pending && d.batch.owner == owner
    ensures Some(d.service) == Select(s.sel, NamesOf(SetOwner(s, name, owner, now).own.services, owner), d.batch.iface)
  {
    var s1 := Rebind(s, name, owner);
    var p := Expire(s1, now).pending;
    var names := NamesOf(s1.own.services, owner);
    var out := Handed(p, owner, names, s.sel);
    assert owner != "" && d in out;
    HandedAreTaken(p, owner, names, s.sel);
    SplitMembers(p, Awaiting(owner, names, s.sel), d.batch);
    SameBatches(s, s1);
    ExpireKeeps(s1, now);
  }

  ghost predicate UnderOwnName(s: State, d: Delivery) {
    var b := d.batch;
    Some(d.service) == Select(s.sel, if IsVenus(b.owner) then {b.owner} else NamesOf(s.own.services, b.owner), b.iface)
  }

  /** What a change of owner hands out, whatever the refresh under way and the clock. */
  lemma ReboundUnderOwnName(s: State, s0: State, name: string, owner: string, now: real, d: Delivery)
    requires History(s) && s0.pending == s.pending && s0.clock >= s.clock && s0.log == s.log
    requires d in SetOwner(s0, name, owner, now).log.delivered[|s.log.delivered|..]
    ensures UnderOwnName(SetOwner(s0, name, owner, now), d)
  {
    hide Accounted, Numbered, ByTime, ItemCount, Take, Leave, Handed;
    SameBatches(s, s0);
    SetOwnerDelivers(s0, name, owner, now, d);
    assert d.batch.owner[0] == ':';
  }

  /** The event adds this delivery. */
  ghost predicate HandsOut(y: System, e: Event, d: Delivery)
    requires CanHappen(y, e)
  {
    var was, now := y.tracker.log.delivered, Step(y, e).tracker.log.delivered;
    |was| <= |now| && d in now[|was|..]
  }

  lemma LookupUnderOwnName(y: System, e: Event, d: Delivery)
    requires CanHappen(y, e) && History(y.tracker) && e.ReplyArrives?
    requires HandsOut(y, e, d)
    ensures UnderOwnName(Step(y, e).tracker, d)
  {
    hide SetOwner, History, LookUp, UnderOwnName;
    var s, a := y.tracker, y.answers[e.token];
    var s1 := s.(own := s.own.(requests := s.own.requests - {e.token}), clock := e.now);
    assert a.reply.Owner?;
    ReboundUnderOwnName(s, s1, a.request.name, a.reply.owner, e.now, d);
    ClosingKeepsNames(SetOwner(s1, a.request.name, a.reply.owner, e.now), d);
  }

  lemma ClosingKeepsNames(s: State, d: Delivery)
    ensures UnderOwnName(s.(own := CloseWindow(s.own)), d) <==> UnderOwnName(s, d)
  {
  }

  /** Each delivery goes out under the name selected among those its sender owns at that moment. */
  lemma DeliveredUnderOwnName(y: System, e: Event, d: Delivery)
    requires CanHappen(y, e) && History(y.tracker)
    requires HandsOut(y, e, d)
    ensures UnderOwnName(Step(y, e).tracker, d)
  {
    hide History, SetOwner, Complete, Take, Leave;
    var s := y.tracker;
    match e
    case SignalArrives(now) =>
      var x := y.signals[0];
      var changed := if s.own.refreshing then s.own.changed + {x.name} else s.own.changed;
      ReboundUnderOwnName(s, s.(own := s.own.(changed := changed), clock := now), x.name, x.owner, now, d);
    case ReplyArrives(token, raised, now) => LookupUnderOwnName(y, e, d);
    case TimesOut(token, now) => TimingOutDelivers(s, token, now);
    case Submits(owner, items, correlation, iface, accepted, now) =>
      SubmitTableSame(s, owner, items, correlation, iface, accepted, now);
    case _ =>
  }

  lemma TimingOutDelivers(s: State, token: nat, now: real)
    requires token in s.own.requests
    ensures Complete(s, token, s.own.requests[token], Error, {}, now).log == s.log
  {
  }

  /** Submitting changes no owner. */
  lemma SubmitTableSame(s: State, owner: string, items: Items, correlation: Option<string>, iface: string,
                        accepted: bool, now: real)
    ensures var s' := Submit(s, owner, items, correlation, iface, accepted, now);
            s'.own.services == s.own.services && s'.sel == s.sel
  {
    var b := Batch(|s.log.submitted|, now, owner, items, correlation, iface);
    EnqueueTableSame(s.(log := s.log.(submitted := s.log.submitted + [b]), clock := now), b, accepted, now);
  }

  lemma EnqueueTableSame(s: State, b: Batch, accepted: bool, now: real)
    ensures var s' := Enqueue(s, b, accepted, now); s'.own.services == s.own.services && s'.sel == s.sel
  {
    hide Take, Leave, Excess;
  }
}
