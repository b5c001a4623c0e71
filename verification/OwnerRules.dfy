// The rules the tracker follows, with every limit written out: when it asks the daemon for its
// names, what becomes of a batch, how long and how much it queues, and that a stop is final.
module OwnerRules {
  import opened Wrappers
  import opened Lexicographic
  import opened Selection
  import opened Batches
  import opened OwnerState
  import opened OwnerProtocol

  lemma VenusNames(name: string)
    ensures IsVenus(name) <==> |name| >= 18 && name[..18] == "com.victronenergy."
  {
    assert |"com.victronenergy."| == 18;
  }

  /** Nothing the bus, the clock or a caller may do at a moment is left out of the runs. */
  lemma AnythingMayCome(y: System, now: real, accepted: bool, owner: string, items: Items,
                        correlation: Option<string>, iface: string, sel: Selector)
    requires y.tracker.clock <= now
    ensures CanHappen(y, Starts(accepted, now)) && CanHappen(y, Stops) && CanHappen(y, Subscribes(sel))
    ensures CanHappen(y, Submits(owner, items, correlation, iface, accepted, now))
    ensures y.tracker.own.started || y.tracker.own.closed ==> CanHappen(y, Ticks(accepted, now))
    ensures y.signals != [] ==> CanHappen(y, SignalArrives(now))
    ensures forall t :: t in y.tracker.own.requests ==> CanHappen(y, TimesOut(t, now))
    ensures forall t :: t in y.tracker.own.requests && t !in y.answers ==> CanHappen(y, DaemonAnswers(t))
    ensures forall t, raised :: t in y.answers && Fits(y.answers[t].request, y.answers[t].reply) ==>
              CanHappen(y, ReplyArrives(t, raised, now))
    ensures forall name, other :: OwnerAt(y.daemon, name) != other ==> CanHappen(y, OwnerChanges(name, other))
  {
  }

  // ---- asking for names ----

  /** The last attempt was a minute ago and none is under way. */
  ghost predicate Ripe(o: Ownership, now: real) {
    !o.closed && !o.refreshing && now - o.lastRefresh >= 60.0
  }

  /** Nothing the sender owns lets the batch through, so that it must wait for a name. */
  ghost predicate Unresolved(s: State, owner: string, items: Items, iface: string) {
    && items != map[] && ":" <= owner
    && forall n :: n in s.own.services && s.own.services[n] == owner ==> !Eligible(s.sel, n, iface)
  }

  /** The first start, a tick with something young still queued, and a batch that has to wait. */
  ghost predicate Prompts(s: State, e: Event) {
    match e
    case Starts(_, _) => !s.own.started
    case Ticks(_, now) => exists b :: b in s.pending && now - b.time < 10.0
    case Submits(owner, items, _, iface, _, _) =>
      Unresolved(s, owner, items, iface) && (|items| <= 4096 || !s.own.started)
    case _ => false
  }

  /** One `ListNames` goes out; a call that raises is tried again five seconds later. */
  ghost predicate Asks(o: Ownership, o': Ownership, accepted: bool, now: real) {
    && o'.requests == (if accepted then o.requests[o.nextToken := ListNames] else o.requests)
    && o'.refreshing == (accepted || o.requests != map[])
    && o'.lastRefresh == (if accepted then now else now - 55.0)
    && o'.changed == {}
  }

  ghost predicate Rests(o: Ownership, o': Ownership) {
    o'.requests == o.requests && o'.refreshing == o.refreshing && o'.lastRefresh == o.lastRefresh
      && o'.changed == o.changed
  }

  lemma RefreshAsks(o: Ownership, accepted: bool, now: real)
    ensures var o' := Refresh(o, accepted, now);
            && o'.started == o.started && o'.closed == o.closed
            && (if Ripe(o, now) then Asks(o, o', accepted, now) else Rests(o, o'))
  {
  }

  lemma StartAsks(o: Ownership, accepted: bool, now: real)
    ensures var o' := Start(o, accepted, now);
            if Ripe(o, now) && !o.started then Asks(o, o', accepted, now) else Rests(o, o')
  {
    hide Refresh;
    RefreshAsks(o.(started := true), accepted, now);
  }

  lemma TickAsks(s: State, accepted: bool, now: real)
    ensures var s' := Tick(s, accepted, now);
            if Ripe(s.own, now) && (exists b :: b in s.pending && now - b.time < 10.0)
            then Asks(s.own, s'.own, accepted, now) else Rests(s.own, s'.own)
  {
    var left := Leave(s.pending, Expired(now - PENDING_TTL));
    forall b ensures b in left <==> b in s.pending && now - b.time < 10.0 {
      SplitMembers(s.pending, Expired(now - PENDING_TTL), b);
    }
    assert left != [] ==> left[0] in left;
    RefreshAsks(s.own, accepted, now);
  }

  lemma EnqueueAsks(s: State, b: Batch, accepted: bool, now: real)
    requires !s.own.closed
    ensures var s' := Enqueue(s, b, accepted, now);
            if Ripe(s.own, now) && (|b.changed| <= 4096 || !s.own.started)
            then Asks(s.own, s'.own, accepted, now) else Rests(s.own, s'.own)
  {
    hide Take, Leave, Excess, Refresh;
    RefreshAsks(s.own, accepted, now);
    RefreshAsks(s.own.(started := true), accepted, now);
    RefreshAsks(Start(s.own, accepted, now), accepted, now);
  }

  lemma SubmitAsks(s: State, owner: string, items: Items, correlation: Option<string>, iface: string, accepted: bool,
                   now: real)
    ensures var s' := Submit(s, owner, items, correlation, iface, accepted, now);
            if Ripe(s.own, now) && Unresolved(s, owner, items, iface) && (|items| <= 4096 || !s.own.started)
            then Asks(s.own, s'.own, accepted, now) else Rests(s.own, s'.own)
  {
    hide Enqueue, Asks, Select;
    var b := Batch(|s.log.submitted|, now, owner, items, correlation, iface);
    var names := if IsVenus(owner) then {owner} else NamesOf(s.own.services, owner);
    if !s.own.closed {
      assert ":" <= owner ==> owner[0] == ':' && !IsVenus(owner) by { assert ":"[0] == ':' && VENUS_PREFIX[0] == 'c'; }
      assert Unresolved(s, owner, items, iface) <==>
          items != map[] && ":" <= owner && Select(s.sel, names, iface).None?;
      EnqueueAsks(s.(log := s.log.(submitted := s.log.submitted + [b]), clock := now), b, accepted, now);
    }
  }

  /** When the tracker asks, and what that changes; no other event but a completed request touches a refresh. */
  lemma AsksWhenPrompted(y: System, e: Event)
    requires CanHappen(y, e) && !e.ReplyArrives? && !e.TimesOut? && !e.Stops?
    ensures var o, o' := y.tracker.own, Step(y, e).tracker.own;
            if e.Starts? || e.Ticks? || e.Submits? then
              if Ripe(o, e.now) && Prompts(y.tracker, e) then Asks(o, o', e.accepted, e.now) else Rests(o, o')
            else
              Rests(o, o'.(changed := o.changed))
  {
    hide Asks, Start, Refresh, Submit, Tick, Unresolved;
    var s := y.tracker;
    match e
    case Starts(accepted, now) => StartAsks(s.own, accepted, now);
    case Ticks(accepted, now) => TickAsks(s, accepted, now);
    case Submits(owner, items, correlation, iface, accepted, now) =>
      SubmitAsks(s, owner, items, correlation, iface, accepted, now);
    case _ =>
  }

  /** A tracker just made asks at its first start, whenever that is. */
  lemma FirstStartAsks(sel: Selector, daemon: map<string, string>, made: real, now: real)
    requires made <= now && 0.0 <= now
    ensures Step(Start0(sel, daemon, made), Starts(true, now)).tracker.own.requests == map[0 := ListNames]
  {
    AsksWhenPrompted(Start0(sel, daemon, made), Starts(true, now));
  }

  // ---- what a reply leads to ----

  /** One `GetNameOwner` has gone out for each name in its turn, but for those whose call raised. */
  ghost predicate AskedInTurn(o: Ownership, o': Ownership, names: seq<string>, raised: set<string>, now: real) {
    && o'.nextToken == o.nextToken + |names|
    && (forall t :: t in o.requests ==> t in o'.requests && o'.requests[t] == o.requests[t])
    && (forall t :: t in o'.requests ==> t in o.requests || o.nextToken <= t < o'.nextToken)
    && (forall i {:trigger names[i]} :: 0 <= i < |names| ==>
          (o.nextToken + i in o'.requests <==> names[i] !in raised)
          && (names[i] !in raised ==> o'.requests[o.nextToken + i] == GetNameOwner(names[i])))
    && o'.lastRefresh == (if exists n :: n in names && n in raised then now - 55.0 else o.lastRefresh)
  }

  lemma AskedFirst(o: Ownership, o1: Ownership, o': Ownership, names: seq<string>, raised: set<string>, now: real)
    requires names != [] && forall t :: t in o.requests ==> t < o.nextToken
    requires o1.nextToken == o.nextToken + 1
    requires o1.requests == if names[0] in raised then o.requests else o.requests[o.nextToken := GetNameOwner(names[0])]
    requires o1.lastRefresh == if names[0] in raised then now - 55.0 else o.lastRefresh
    requires AskedInTurn(o1, o', names[1..], raised, now)
    ensures AskedInTurn(o, o', names, raised, now)
  {
    var rest := names[1..];
    forall i | 0 <= i < |names|
      ensures o.nextToken + i in o'.requests <==> names[i] !in raised
      ensures names[i] !in raised ==> o'.requests[o.nextToken + i] == GetNameOwner(names[i])
    {
      if i > 0 {
        assert rest[i - 1] == names[i] && o1.nextToken + (i - 1) == o.nextToken + i;
      }
    }
    assert (exists n :: n in names && n in raised) <==> names[0] in raised || exists n :: n in rest && n in raised;
  }

  lemma {:induction false} LookUpAsks(o: Ownership, names: seq<string>, raised: set<string>, now: real)
    requires forall t :: t in o.requests ==> t < o.nextToken
    ensures AskedInTurn(o, LookUp(o, names, raised, now), names, raised, now)
    decreases |names|
  {
    if names != [] {
      hide AskedInTurn;
      var o1 := CallDaemon(o, GetNameOwner(names[0]), names[0] !in raised, now);
      LookUpAsks(o1, names[1..], raised, now);
      AskedFirst(o, o1, LookUp(o, names, raised, now), names, raised, now);
    }
  }

  /** The names of services the daemon lists and no signal has overtaken. */
  ghost function ToAsk(names: set<string>, changed: set<string>): set<string> {
    set n | n in names && "com.victronenergy." <= n && n !in changed
  }

  /**
   * A completed request leaves those outstanding. A list of names has one lookup sent for each service not
   * signalled meanwhile, in the order of their names; an owner or an error sends nothing, and an error has the
   * next refresh five seconds away. With nothing outstanding any more the refresh is over.
   */
  lemma ReplySettles(s: State, token: nat, request: Request, reply: Reply, raised: set<string>, now: real)
    requires !s.own.closed && Fits(request, reply) && forall t :: t in s.own.requests ==> t < s.own.nextToken
    ensures var o, o' := s.own.(requests := s.own.requests - {token}),
        Complete(s, token, request, reply, raised, now).own;
            && (o'.requests == map[] ==> !o'.refreshing && o'.changed == {})
            && match reply {
                 case Names(names) => AskedInTurn(o, o', Sorted(ToAsk(names, o.changed)), raised, now)
                 case Owner(_) => o'.requests == o.requests && o'.lastRefresh == o.lastRefresh
                 case Error => o'.requests == o.requests && o'.lastRefresh == now - 55.0
               }
  {
    hide AskedInTurn, LookUp, Sorted;
    if reply.Names? {
      var present := VenusOnly(reply.names) - s.own.changed;
      assert present == ToAsk(reply.names, s.own.changed);
      var s1 := s.(own := s.own.(requests := s.own.requests - {token}), clock := now);
      var s2 := Forget(s1, s1.own.services.Keys - VenusOnly(reply.names) - s1.own.changed);
      LookUpAsks(s2.own, Sorted(present), raised, now);
      ForgettingKeepsAsked(s1.own, s2.own, Sorted(present), raised, now);
    }
  }

  lemma ForgettingKeepsAsked(o: Ownership, o1: Ownership, names: seq<string>, raised: set<string>, now: real)
    requires o1 == o.(services := o1.services) && AskedInTurn(o1, LookUp(o1, names, raised, now), names, raised, now)
    ensures AskedInTurn(o, CloseWindow(LookUp(o1, names, raised, now)), names, raised, now)
  {
    hide LookUp;
  }

  // ---- the queue ----

  ghost function Fresh(p: seq<Batch>, now: real): seq<Batch> {
    if p == [] then [] else (if now - p[0].time < 10.0 then [p[0]] else []) + Fresh(p[1..], now)
  }

  ghost function Stale(p: seq<Batch>, now: real): seq<Batch> {
    if p == [] then [] else (if now - p[0].time >= 10.0 then [p[0]] else []) + Stale(p[1..], now)
  }

  lemma {:induction false} TenSeconds(p: seq<Batch>, now: real)
    ensures Leave(p, Expired(now - PENDING_TTL)) == Fresh(p, now)
    ensures Take(p, Expired(now - PENDING_TTL)) == Stale(p, now)
  {
    if p != [] {
      TenSeconds(p[1..], now);
    }
  }

  ghost predicate WithinLimits(p: seq<Batch>) { |p| <= 256 && ItemCount(p) <= 4096 }

  /** The number dropped for room is the least that keeps the queue within its limits. */
  lemma {:induction false} DropsAsFewAsFit(p: seq<Batch>, b: Batch, j: nat)
    requires |b.changed| <= 4096 && j <= |p|
    ensures WithinLimits(p[j..] + [b]) <==> Excess(p, |b.changed|) <= j
  {
    ItemCountConcat(p[j..], [b]);
    ItemCountConcat(p[..j], p[j..]);
    assert p[..j] + p[j..] == p;
    if j == 0 {
      assert p[0..] == p;
    } else if !HasRoom(p, |b.changed|) {
      DropsAsFewAsFit(p[1..], b, j - 1);
      assert p[1..][j - 1..] == p[j..];
    }
  }

  /** What becomes of a submitted batch, from what its sender owns, its size and what is queued. */
  ghost predicate Settled(s: State, s': State, b: Batch, names: set<string>, now: real) {
    var young := Fresh(s.pending, now);
    if exists n :: n in names && Eligible(s.sel, n, b.iface) then
      exists n :: n in names && Eligible(s.sel, n, b.iface)
        && (forall m :: m in names && Eligible(s.sel, m, b.iface) ==> AtMost(n, m))
        && s'.log == s.log.(submitted := s.log.submitted + [b], delivered := s.log.delivered + [Delivery(n, b)])
        && s'.pending == s.pending
    else if b.owner == "" || b.owner[0] != ':' then
      s'.log == s.log.(submitted := s.log.submitted + [b], ignored := s.log.ignored + [b]) && s'.pending == s.pending
    else if |b.changed| > 4096 then
      s'.log == s.log.(submitted := s.log.submitted + [b], expired := s.log.expired + Stale(s.pending, now),
                       overflowed := s.log.overflowed + [b])
      && s'.pending == young
    else
      exists k | 0 <= k <= |young| ::
        && s'.log == s.log.(submitted := s.log.submitted + [b], expired := s.log.expired + Stale(s.pending, now),
                            overflowed := s.log.overflowed + young[..k])
        && s'.pending == young[k..] + [b]
        && forall j | 0 <= j <= |young| :: WithinLimits(young[j..] + [b]) <==> k <= j
  }

  lemma EnqueueSettles(s: State, b: Batch, names: set<string>, accepted: bool, now: real)
    requires ":" <= b.owner && forall n :: n in names ==> !Eligible(s.sel, n, b.iface)
    ensures Settled(s, Enqueue(s.(log := s.log.(submitted := s.log.submitted + [b])), b, accepted, now), b, names, now)
  {
    hide Excess, Take, Leave, Fresh, Stale, WithinLimits;
    TenSeconds(s.pending, now);
    var young := Fresh(s.pending, now);
    if |b.changed| <= 4096 {
      forall j | 0 <= j <= |young| ensures WithinLimits(young[j..] + [b]) <==> Excess(young, |b.changed|) <= j {
        DropsAsFewAsFit(young, b, j);
      }
    }
  }

  lemma SubmissionSettles(s: State, owner: string, items: Items, correlation: Option<string>, iface: string,
                          accepted: bool, now: real)
    requires !s.own.closed && items != map[]
    ensures var names := if "com.victronenergy." <= owner then {owner}
                         else set n | n in s.own.services && s.own.services[n] == owner;
            Settled(s, Submit(s, owner, items, correlation, iface, accepted, now),
                    Batch(|s.log.submitted|, now, owner, items, correlation, iface), names, now)
  {
    hide Enqueue, Fresh, Stale, WithinLimits;
    var b := Batch(|s.log.submitted|, now, owner, items, correlation, iface);
    var names := if IsVenus(owner) then {owner} else NamesOf(s.own.services, owner);
    assert ":" <= owner ==> owner[0] == ':' && !IsVenus(owner) by { assert ":"[0] == ':' && VENUS_PREFIX[0] == 'c'; }
    assert owner != "" && owner[0] == ':' ==> owner[..1] == ":" && ":" <= owner;
    if Select(s.sel, names, iface).None? && ":" <= owner {
      EnqueueSettles(s.(clock := now), b, names, accepted, now);
    }
  }

  lemma TickSettles(s: State, accepted: bool, now: real)
    requires !s.own.closed
    ensures var s' := Tick(s, accepted, now);
            s'.pending == Fresh(s.pending, now) && s'.log == s.log.(expired := s.log.expired + Stale(s.pending, now))
  {
    TenSeconds(s.pending, now);
  }

  // ---- stopping ----

  ghost predicate Silent(s: State) {
    s.own.closed && !s.own.started && s.own.services == map[] && s.own.requests == map[] && s.pending == []
  }

  /** Whatever comes after a stop, nothing is subscribed, asked, queued, delivered, dropped or invalidated. */
  lemma {:induction false} StopIsFinal(y: System, run: seq<Event>)
    requires Possible(y, run) && Silent(y.tracker)
    ensures Silent(After(y, run).tracker) && After(y, run).tracker.log == y.tracker.log
    decreases |run|
  {
    if run != [] {
      SilentStep(y, run[0]);
      StopIsFinal(Step(y, run[0]), run[1..]);
    }
  }

  lemma SilentStep(y: System, e: Event)
    requires CanHappen(y, e) && Silent(y.tracker)
    ensures Silent(Step(y, e).tracker) && Step(y, e).tracker.log == y.tracker.log
  {
  }

  lemma StopSilences(s: State)
    ensures Silent(Stop(s)) && Stop(s).log == s.log.(discarded := s.log.discarded + s.pending)
  {
  }
}
