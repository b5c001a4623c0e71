// The tracker as the source keeps it: a table, its reverse, a queue and a running count, all
// updated in place. Every callback is proved to act as OwnerState says.
module OwnerTracker {
  import opened Wrappers
  import opened Sequences
  import opened Lexicographic
  import opened Selection
  import opened Batches
  import opened OwnerState

  lemma DropHead(p: seq<Batch>, k: nat, dropped: seq<Batch>)
    requires k < |p|
    ensures p[k..][1..] == p[k + 1..] && p[k..][0] == p[k]
    ensures dropped + p[..k] + [p[k]] == dropped + p[..k + 1]
  {
    assert p[..k + 1] == p[..k] + [p[k]];
  }

  lemma ForgetOne(s: State, done: set<string>, name: string)
    requires name in s.own.services && name !in done && s.own.services[name] != ""
    ensures OwnerState.Rebind(Forget(s, done), name, "") == Forget(s, done + {name})
  {
    assert multiset(done + {name}) == multiset(done) + multiset({name});
    assert s.own.services - done - {name} == s.own.services - (done + {name});
  }

  /** The reverse of the table gains the new name at its owner. */
  lemma Gains(owners: map<string, set<string>>, services: map<string, string>, name: string, owner: string)
    requires IsReverse(owners, services) && name !in services
    ensures IsReverse(owners[owner := (if owner in owners then owners[owner] else {}) + {name}],
        services[name := owner])
  {
    var services' := services[name := owner];
    assert name in NamesOf(services', owner);
    forall o ensures NamesOf(services', o) == NamesOf(services, o) + if o == owner then {name} else {} {}
  }

  /** What queueing does once room has been made and before the refresh it may start. */
  lemma Enqueued(s: State, b: Batch, accepted: bool, now: real, s1: State, s2: State)
    requires s1 == OwnerState.Expire(s.(own := OwnerState.Start(s.own, accepted, now)), now)
    requires |b.changed| > MAX_PENDING_ITEMS ==> s2 == s1.(log := s1.log.(overflowed := s1.log.overflowed + [b]))
    requires |b.changed| <= MAX_PENDING_ITEMS ==>
               var k := Excess(s1.pending, |b.changed|);
               s2 == s1.(pending := s1.pending[k..] + [b],
                 log := s1.log.(overflowed := s1.log.overflowed + s1.pending[..k]))
    ensures OwnerState.Enqueue(s, b, accepted, now)
         == if |b.changed| > MAX_PENDING_ITEMS then s2 else s2.(own := OwnerState.Refresh(s2.own, accepted, now))
  {
  }

  class ServiceOwnerTracker {
    var selector: Selector
    var services: map<string, string>
    var owners: map<string, set<string>>
    var pending: seq<Batch>
    var pendingItems: int
    var started: bool
    var closed: bool
    var requests: map<nat, Request>
    var nextToken: nat
    var refreshing: bool
    var changed: set<string>
    var lastRefresh: real
    var log: Log
    ghost var clock: real

    ghost predicate Valid()
      reads this
    {
      IsReverse(owners, services) && "" !in owners
      && pendingItems == ItemCount(pending) && ByTime(pending, clock)
    }

    ghost function Table(): Ownership
      reads this
    {
      Ownership(services, started, closed, requests, nextToken, refreshing, changed, lastRefresh)
    }

    ghost function Model(): State
      reads this
    {
      State(Table(), pending, selector, log, clock)
    }

    constructor (sel: Selector, now: real)
      ensures Valid() && Model() == Initial(sel, now)
    {
      selector, services, owners := sel, map[], map[];
      pending, pendingItems := [], 0;
      started, closed, refreshing := false, false, false;
      requests, nextToken, changed := map[], 0, {};
      lastRefresh := -REFRESH_INTERVAL;
      log, clock := EmptyLog, now;
      NothingOwned();
    }

    // ---- the queue ----

    method Expire(now: real)
      requires pendingItems == ItemCount(pending) && ByTime(pending, clock)
      modifies this`pending, this`pendingItems, this`log
      ensures pendingItems == ItemCount(pending) && ByTime(pending, clock)
      ensures Model() == OwnerState.Expire(old(Model()), now)
    {
      hide Take, Leave, ItemCount, ByTime;
      var cutoff := now - PENDING_TTL;
      ghost var test := Expired(cutoff);
      while pending != [] && pending[0].time <= cutoff
        invariant pendingItems == ItemCount(pending) && ByTime(pending, clock)
        invariant log.expired + Take(pending, test) == old(log.expired + Take(pending, test))
        invariant log == old(log).(expired := log.expired)
        invariant Leave(pending, test) == Leave(old(pending), test)
        decreases |pending|
      {
        HeadExpires(pending, test, clock);
        Assoc(log.expired, [pending[0]], Take(pending[1..], test));
        log := log.(expired := log.expired + [pending[0]]);
        pendingItems := pendingItems - |pending[0].changed|;
        pending := pending[1..];
      }
      FreshHead(pending, clock, cutoff);
    }

    /** Empties the head of the queue until a batch of `n` items fits. */
    method MakeRoom(n: nat)
      requires pendingItems == ItemCount(pending) && ByTime(pending, clock)
      modifies this`pending, this`pendingItems, this`log
      ensures pendingItems == ItemCount(pending) && ByTime(pending, clock)
      ensures var k := Excess(old(pending), n);
              pending == old(pending)[k..]
              && log == old(log).(overflowed := old(log).overflowed + old(pending)[..k])
    {
      ghost var was, k := pending, 0;
      while pending != [] && (|pending| >= MAX_PENDING_BATCHES || pendingItems + n > MAX_PENDING_ITEMS)
        invariant k <= |was| && pending == was[k..]
        invariant pendingItems == ItemCount(pending) && ByTime(pending, clock)
        invariant Excess(was, n) == k + Excess(pending, n)
        invariant log == old(log).(overflowed := old(log).overflowed + was[..k])
        decreases |pending|
      {
        DropHead(was, k, old(log).overflowed);
        log := log.(overflowed := log.overflowed + [pending[0]]);
        pendingItems := pendingItems - |pending[0].changed|;
        pending := pending[1..];
        k := k + 1;
      }
    }

    /** The scan of a replay: what is handed out, what stays, and how many items leave the queue. */
    static method Partition(p: seq<Batch>, owner: string, names: set<string>, sel: Selector)
      returns (replay: seq<Delivery>, retained: seq<Batch>, taken: nat)
      ensures replay == Handed(p, owner, names, sel)
      ensures retained == Leave(p, Awaiting(owner, names, sel))
      ensures taken + ItemCount(retained) == ItemCount(p)
    {
      ghost var test := Awaiting(owner, names, sel);
      replay, retained, taken := [], [], 0;
      var i := 0;
      while i < |p|
        invariant i <= |p| && Scanned(p, i, test, replay, retained, taken)
      {
        var item := p[i];
        ScanStep(p, i, test, replay, retained, taken);
        var service := if item.owner == owner then Select(sel, names, item.iface) else None;
        if service.Some? {
          replay := replay + [Delivery(service.value, item)];
          taken := taken + |item.changed|;
        } else {
          retained := retained + [item];
        }
        i := i + 1;
      }
    }

    method Replay(owner: string, now: real)
      requires Valid() && owner in owners
      modifies this`pending, this`pendingItems, this`log
      ensures Valid() && Model() == OwnerState.Replay(old(Model()), owner, now)
    {
      hide ItemCount, ByTime, NamesOf, Take, Leave, Handed;
      Expire(now);
      LeaveByTime(pending, clock, Awaiting(owner, owners[owner], selector));
      var replay, retained, taken := Partition(pending, owner, owners[owner], selector);
      pending := retained;
      pendingItems := pendingItems - taken;
      log := log.(delivered := log.delivered + replay);
    }

    // ---- the owner table ----

    method Remove(name: string)
      requires IsReverse(owners, services) && name in services
      modifies this`services, this`owners
      ensures IsReverse(owners, services) && services == old(services) - {name} && owners.Keys <= old(owners).Keys
    {
      var previous := services[name];
      assert name in NamesOf(services, previous);
      services := services - {name};
      var names := owners[previous] - {name};
      owners := if names == {} then owners - {previous} else owners[previous := names];
      forall o ensures NamesOf(services, o) == NamesOf(old(services), o) - {name} {}
      forall o | o != previous ensures NamesOf(services, o) == NamesOf(old(services), o) {}
    }

    method Add(name: string, owner: string)
      requires IsReverse(owners, services) && name !in services
      modifies this`services, this`owners
      ensures IsReverse(owners, services) && services == old(services)[name := owner]
      ensures owners.Keys == old(owners).Keys + {owner}
    {
      hide IsReverse;
      Gains(owners, services, name, owner);
      services := services[name := owner];
      owners := owners[owner := (if owner in owners then owners[owner] else {}) + {name}];
    }

    method Rebind(name: string, owner: string)
      requires Valid()
      modifies this`services, this`owners, this`log
      ensures Valid() && Model() == OwnerState.Rebind(old(Model()), name, owner)
      ensures owner != "" ==> owner in owners
    {
      hide IsReverse, ItemCount, ByTime, NamesOf;
      var lost: set<string> := {};
      if name in services {
        if services[name] != owner {
          lost := {name};
        }
        Remove(name);
      }
      log := log.(invalidated := log.invalidated + multiset(lost));
      assert services == old(services) - {name};
      if owner != "" {
        Add(name, owner);
        assert services == old(services)[name := owner];
      }
    }

    method SetOwner(name: string, owner: string, now: real)
      requires Valid()
      modifies this`services, this`owners, this`pending, this`pendingItems, this`log
      ensures Valid() && Model() == OwnerState.SetOwner(old(Model()), name, owner, now)
    {
      Rebind(name, owner);
      if owner != "" {
        Replay(owner, now);
      }
    }

    method NameOwnerChanged(name: string, newOwner: string, now: real)
      requires Valid() && clock <= now
      modifies this
      ensures Valid() && Model() == OwnerState.NameOwnerChanged(old(Model()), name, newOwner, now)
    {
      ByTimeLater(pending, clock, now);
      clock := now;
      if closed || !IsVenus(name) {
        return;
      }
      if refreshing {
        changed := changed + {name};
      }
      SetOwner(name, newOwner, now);
    }

    // ---- the refresh protocol ----

    /** The tail of a completion: with nothing outstanding the window closes. */
    method CloseWindow()
      modifies this`refreshing, this`changed
      ensures Table() == OwnerState.CloseWindow(old(Table()))
    {
      if requests == map[] {
        refreshing := false;
        changed := {};
      }
    }

    /** `accepted` says whether `call_async` queued the request or raised. */
    method CallDaemon(request: Request, accepted: bool, now: real)
      modifies this`requests, this`nextToken, this`refreshing, this`changed, this`lastRefresh
      ensures Table() == OwnerState.CallDaemon(old(Table()), request, accepted, now)
    {
      var token := nextToken;
      nextToken := nextToken + 1;
      if accepted {
        requests := requests[token := request];
      } else {
        lastRefresh := now - REFRESH_INTERVAL + 5.0;
        CloseWindow();
      }
    }

    method Refresh(accepted: bool, now: real)
      modifies this`requests, this`nextToken, this`refreshing, this`changed, this`lastRefresh
      ensures Table() == OwnerState.Refresh(old(Table()), accepted, now)
    {
      if closed || refreshing || now - lastRefresh < REFRESH_INTERVAL {
        return;
      }
      refreshing := true;
      lastRefresh := now;
      changed := {};
      CallDaemon(ListNames, accepted, now);
    }

    method Start(accepted: bool, now: real)
      modifies this`started, this`requests, this`nextToken, this`refreshing, this`changed, this`lastRefresh
      ensures Table() == OwnerState.Start(old(Table()), accepted, now)
    {
      if started || closed {
        return;
      }
      started := true;
      Refresh(accepted, now);
    }

    /** Names the snapshot no longer lists lose their owner one by one. */
    method Forget(gone: set<string>)
      requires Valid() && gone <= services.Keys
      modifies this`services, this`owners, this`log
      ensures Valid() && Model() == OwnerState.Forget(old(Model()), gone)
    {
      var todo := gone;
      ghost var done: set<string> := {};
      assert services - done == services && log.invalidated + multiset(done) == log.invalidated;
      while todo != {}
        invariant Valid() && done !! todo && done + todo == gone
        invariant Model() == OwnerState.Forget(old(Model()), done)
        decreases todo
      {
        var name :| name in todo;
        assert name in NamesOf(services, services[name]);
        ForgetOne(old(Model()), done, name);
        Rebind(name, "");
        done, todo := done + {name}, todo - {name};
      }
      assert done == gone;
    }

    method LookUp(names: seq<string>, raised: set<string>, now: real)
      modifies this`requests, this`nextToken, this`refreshing, this`changed, this`lastRefresh
      ensures Table() == OwnerState.LookUp(old(Table()), names, raised, now)
    {
      var i := 0;
      while i < |names|
        invariant i <= |names|
        invariant OwnerState.LookUp(Table(), names[i..], raised, now)
               == OwnerState.LookUp(old(Table()), names, raised, now)
      {
        assert names[i..][1..] == names[i + 1..];
        CallDaemon(GetNameOwner(names[i]), names[i] !in raised, now);
        i := i + 1;
      }
    }

    method ListedNames(names: set<string>, raised: set<string>, now: real)
      requires Valid()
      modifies this
      ensures Valid() && Model() == OwnerState.ListedNames(old(Model()), names, raised, now)
    {
      hide IsReverse, ItemCount, ByTime, NamesOf, OwnerState.Forget, OwnerState.LookUp, VenusOnly, Sorted;
      var present := VenusOnly(names);
      var gone, order := services.Keys - present - changed, Sorted(present - changed);
      Forget(gone);
      ghost var s := Model();
      LookUp(order, raised, now);
      assert Model() == s.(own := OwnerState.LookUp(s.own, order, raised, now));
    }

    method FoundOwner(name: string, owner: string, now: real)
      requires Valid()
      modifies this
      ensures Valid() && Model() == OwnerState.FoundOwner(old(Model()), name, owner, now)
    {
      if name !in changed {
        SetOwner(name, owner, now);
      }
    }

    /** A reply, an error or a timeout for the request that `token` was issued for. */
    method Complete(token: nat, request: Request, reply: Reply, raised: set<string>, now: real)
      requires Valid() && Fits(request, reply) && clock <= now
      modifies this
      ensures Valid() && Model() == OwnerState.Complete(old(Model()), token, request, reply, raised, now)
    {
      hide IsReverse, ItemCount, ByTime, NamesOf;
      hide OwnerState.SetOwner, OwnerState.ListedNames, OwnerState.FoundOwner, OwnerState.CloseWindow;
      ByTimeLater(pending, clock, now);
      clock := now;
      if closed {
        return;
      }
      requests := requests - {token};
      match reply {
        case Error => lastRefresh := now - REFRESH_INTERVAL + 5.0;
        case Names(names) => ListedNames(names, raised, now);
        case Owner(owner) => FoundOwner(request.name, owner, now);
      }
      CloseWindow();
    }

    // ---- traffic ----

    method Submit(owner: string, items: Items, correlation: Option<string>, iface: string, accepted: bool, now: real)
      requires Valid() && clock <= now
      modifies this
      ensures Valid()
      ensures Model() == OwnerState.Submit(old(Model()), owner, items, correlation, iface, accepted, now)
    {
      hide ItemCount, ByTime, OwnerState.Enqueue;
      ByTimeLater(pending, clock, now);
      clock := now;
      if closed || items == map[] {
        return;
      }
      var b := Batch(|log.submitted|, now, owner, items, correlation, iface);
      log := log.(submitted := log.submitted + [b]);
      if IsVenus(owner) {
        var service := Select(selector, {owner}, iface);
        if service.Some? {
          log := log.(delivered := log.delivered + [Delivery(service.value, b)]);
        } else {
          log := log.(ignored := log.ignored + [b]);
        }
        return;
      }
      var names := if owner in owners then owners[owner] else {};
      assert names == NamesOf(services, owner);
      var service := Select(selector, names, iface);
      if service.Some? {
        log := log.(delivered := log.delivered + [Delivery(service.value, b)]);
        return;
      }
      if !(":" <= owner) {
        log := log.(ignored := log.ignored + [b]);
        return;
      }
      Enqueue(b, accepted, now);
    }

    /** An unresolved sender's batch is queued, if need be at the expense of the oldest ones. */
    method Enqueue(b: Batch, accepted: bool, now: real)
      requires Valid() && b.time == clock == now
      modifies this
      ensures Valid() && Model() == OwnerState.Enqueue(old(Model()), b, accepted, now)
    {
      hide IsReverse, ItemCount, ByTime, Excess;
      hide OwnerState.Start, OwnerState.Refresh, OwnerState.Expire, OwnerState.Enqueue;
      ghost var s := Model();
      Start(accepted, now);
      assert Model() == s.(own := OwnerState.Start(s.own, accepted, now));
      Expire(now);
      ghost var s1 := Model();
      if |b.changed| > MAX_PENDING_ITEMS {
        log := log.(overflowed := log.overflowed + [b]);
        Enqueued(s, b, accepted, now, s1, Model());
        return;
      }
      Queue(b);
      ghost var s2 := Model();
      Enqueued(s, b, accepted, now, s1, s2);
      Refresh(accepted, now);
      assert Model() == s2.(own := OwnerState.Refresh(s2.own, accepted, now));
    }

    /** Room is made and the batch goes to the end. */
    method Queue(b: Batch)
      requires Valid() && b.time == clock && |b.changed| <= MAX_PENDING_ITEMS
      modifies this`pending, this`pendingItems, this`log
      ensures Valid()
      ensures var k := Excess(old(pending), |b.changed|);
              pending == old(pending)[k..] + [b]
                && log == old(log).(overflowed := old(log).overflowed + old(pending)[..k])
    {
      MakeRoom(|b.changed|);
      Append(b);
    }

    method Append(b: Batch)
      requires pendingItems == ItemCount(pending) && ByTime(pending, clock) && b.time == clock
      modifies this`pending, this`pendingItems
      ensures pendingItems == ItemCount(pending) && ByTime(pending, clock)
      ensures pending == old(pending) + [b]
    {
      ItemCountConcat(pending, [b]);
      ByTimeAppend(pending, clock, b);
      pending := pending + [b];
      pendingItems := pendingItems + |b.changed|;
    }

    method Tick(accepted: bool, now: real) returns (again: bool)
      requires Valid() && clock <= now
      modifies this
      ensures Valid() && Model() == OwnerState.Tick(old(Model()), accepted, now)
      ensures again == !closed
    {
      ByTimeLater(pending, clock, now);
      clock := now;
      if closed {
        return false;
      }
      Expire(now);
      if pending != [] {
        Refresh(accepted, now);
      }
      return true;
    }

    method Stop()
      modifies this
      ensures Valid() && Model() == OwnerState.Stop(old(Model()))
    {
      hide IsReverse;
      ghost var was := Model();
      Shut();
      assert Model() == was.(own := OwnerState.Stop(was).own);
      DiscardQueue();
      NothingOwned();
    }

    method Shut()
      modifies this`closed, this`started, this`requests, this`changed, this`services, this`owners
      ensures services == map[] && owners == map[]
      ensures Table()
          == old(Table()).(closed := true, started := false, requests := map[], changed := {}, services := map[])
    {
      closed, started := true, false;
      requests, changed := map[], {};
      services, owners := map[], map[];
    }

    method DiscardQueue()
      modifies this`pending, this`pendingItems, this`log
      ensures pending == [] && pendingItems == 0 && log == old(log).(discarded := old(log).discarded + old(pending))
    {
      log := log.(discarded := log.discarded + pending);
      pending, pendingItems := [], 0;
    }
  }
}
