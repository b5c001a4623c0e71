// Which services are told to be gone: exactly those whose owner went away or was replaced.
module OwnerInvalidation {
  import opened Wrappers
  import opened Lexicographic
  import opened Selection
  import opened Batches
  import opened OwnerState
  import opened OwnerProtocol
  import opened OwnerHistory

  /** The names that had an owner before and have none, or another one, after. */
  function Lost(before: map<string, string>, after: map<string, string>): set<string> {
    set n | n in before && (n !in after || after[n] != before[n])
  }

  ghost predicate Named(services: map<string, string>) { forall n :: n in services ==> services[n] != "" }

  /** The names that lost their owner on the way have been invalidated once each, and no others. */
  ghost predicate Told(s: State, s': State) {
    s'.log.invalidated == s.log.invalidated + multiset(Lost(s.own.services, s'.own.services))
  }

  lemma SameTableTold(s: State, s': State)
    requires s'.own.services == s.own.services && s'.log.invalidated == s.log.invalidated
    ensures Told(s, s')
  {
    assert Lost(s.own.services, s'.own.services) == {};
  }

  lemma SetOwnerTold(s: State, name: string, owner: string, now: real)
    requires Named(s.own.services)
    ensures Told(s, SetOwner(s, name, owner, now)) && Named(SetOwner(s, name, owner, now).own.services)
  {
    var a, b := s.own.services, SetOwner(s, name, owner, now).own.services;
    assert b == if owner == "" then a - {name} else a[name := owner];
    assert Lost(a, b) == if name in a && a[name] != owner then {name} else {};
  }

  lemma ListedNamesTold(s: State, names: set<string>, raised: set<string>, now: real)
    requires Named(s.own.services)
    ensures Told(s, ListedNames(s, names, raised, now)) && Named(ListedNames(s, names, raised, now).own.services)
  {
    var a, gone := s.own.services, s.own.services.Keys - VenusOnly(names) - s.own.changed;
    LookUpTable(Forget(s, gone).own, Sorted(VenusOnly(names) - s.own.changed), raised, now);
    assert Lost(a, a - gone) == gone;
  }

  lemma CompleteTold(s: State, token: nat, request: Request, reply: Reply, raised: set<string>, now: real)
    requires Named(s.own.services) && Fits(request, reply)
    ensures var s' := Complete(s, token, request, reply, raised, now); Told(s, s') && Named(s'.own.services)
  {
    var s' := Complete(s, token, request, reply, raised, now);
    if s.own.closed {
      SameTableTold(s, s');
    } else {
      var s1 := s.(own := s.own.(requests := s.own.requests - {token}), clock := now);
      match reply
      case Error => SameTableTold(s, s');
      case Names(names) => ListedNamesTold(s1, names, raised, now);
      case Owner(owner) =>
        if request.name in s1.own.changed { SameTableTold(s, s'); } else { SetOwnerTold(s1, request.name, owner, now); }
    }
  }

  lemma SignalTold(s: State, name: string, owner: string, now: real)
    requires Named(s.own.services)
    ensures var s' := NameOwnerChanged(s, name, owner, now); Told(s, s') && Named(s'.own.services)
  {
    if s.own.closed || !IsVenus(name) {
      SameTableTold(s, NameOwnerChanged(s, name, owner, now));
    } else {
      var changed := if s.own.refreshing then s.own.changed + {name} else s.own.changed;
      SetOwnerTold(s.(own := s.own.(changed := changed), clock := now), name, owner, now);
    }
  }

  lemma EnqueueTold(s: State, b: Batch, accepted: bool, now: real)
    ensures Enqueue(s, b, accepted, now).own.services == s.own.services
    ensures Enqueue(s, b, accepted, now).log.invalidated == s.log.invalidated
  {
    hide Take, Leave, Excess;
  }

  lemma SubmitTold(s: State, owner: string, items: Items, correlation: Option<string>, iface: string,
                   accepted: bool, now: real)
    ensures Told(s, Submit(s, owner, items, correlation, iface, accepted, now))
    ensures Submit(s, owner, items, correlation, iface, accepted, now).own.services == s.own.services
  {
    var b := Batch(|s.log.submitted|, now, owner, items, correlation, iface);
    EnqueueTold(s.(log := s.log.(submitted := s.log.submitted + [b]), clock := now), b, accepted, now);
    SameTableTold(s, Submit(s, owner, items, correlation, iface, accepted, now));
  }

  /**
   * What each event invalidates, read off the owner table before and after it. Stopping forgets the whole table
   * and invalidates nothing.
   */
  lemma StepTold(y: System, e: Event)
    requires CanHappen(y, e) && Named(y.tracker.own.services)
    ensures Named(Step(y, e).tracker.own.services)
    ensures !e.Stops? ==> Told(y.tracker, Step(y, e).tracker)
    ensures e.Stops? ==> Step(y, e).tracker.own.services == map[]
                         && Step(y, e).tracker.log.invalidated == y.tracker.log.invalidated
  {
    hide Told;
    var s := y.tracker;
    match e
    case SignalArrives(now) => SignalTold(s, y.signals[0].name, y.signals[0].owner, now);
    case ReplyArrives(token, raised, now) =>
      CompleteTold(s, token, y.answers[token].request, y.answers[token].reply, raised, now);
    case TimesOut(token, now) => CompleteTold(s, token, s.own.requests[token], Error, {}, now);
    case Submits(owner, items, correlation, iface, accepted, now) =>
      SubmitTold(s, owner, items, correlation, iface, accepted, now);
    case Stops =>
    case _ => SameTableTold(s, Step(y, e).tracker);
  }

  /** The names that lost an owner at each event of a run but the stops. */
  ghost function Losses(y: System, run: seq<Event>): multiset<string>
    requires Possible(y, run)
    decreases |run|
  {
    if run == [] then multiset{}
    else
      var z := Step(y, run[0]);
      (if run[0].Stops? then multiset{} else multiset(Lost(y.tracker.own.services, z.tracker.own.services)))
      + Losses(z, run[1..])
  }

  lemma {:induction false} RunTold(y: System, run: seq<Event>)
    requires Possible(y, run) && Named(y.tracker.own.services)
    ensures After(y, run).tracker.log.invalidated == y.tracker.log.invalidated + Losses(y, run)
    decreases |run|
  {
    if run != [] {
      StepTold(y, run[0]);
      RunTold(Step(y, run[0]), run[1..]);
    }
  }

  /** Over every run from the start: each loss of an owner is told once, and nothing else is. */
  lemma LossesAreTold(sel: Selector, daemon: map<string, string>, now: real, run: seq<Event>)
    requires Possible(Start0(sel, daemon, now), run)
    ensures After(Start0(sel, daemon, now), run).tracker.log.invalidated == Losses(Start0(sel, daemon, now), run)
  {
    RunTold(Start0(sel, daemon, now), run);
  }
}
