// What each callback of the service owner tracker does, on values. The class in OwnerTracker is
// proved to do exactly this; the reverse map of owners and the running item count it keeps are
// not part of the state here but computed from it.
module OwnerState {
  import opened Wrappers
  import opened Lexicographic
  import opened Selection
  import opened Batches

  const VENUS_PREFIX := "com.victronenergy."
  const MAX_PENDING_BATCHES := 256
  const MAX_PENDING_ITEMS := 4096
  const PENDING_TTL := 10.0
  const REFRESH_INTERVAL := 60.0

  datatype Request = ListNames | GetNameOwner(name: string)

  /** What completes a request: its value, or an error or timeout. */
  datatype Reply = Names(names: set<string>) | Owner(owner: string) | Error

  /** The owner table and the refresh that fills it. */
  datatype Ownership = Ownership(
    services: map<string, string>,
    started: bool,
    closed: bool,
    requests: map<nat, Request>,
    nextToken: nat,
    refreshing: bool,
    changed: set<string>,
    lastRefresh: real)

  /** Everything the tracker has ever done to a batch, and every invalidation it asked for. */
  datatype Log = Log(
    submitted: seq<Batch>,
    delivered: seq<Delivery>,
    expired: seq<Batch>,
    overflowed: seq<Batch>,
    ignored: seq<Batch>,
    discarded: seq<Batch>,
    invalidated: multiset<string>)

  datatype State = State(own: Ownership, pending: seq<Batch>, sel: Selector, log: Log, clock: real)

  const EmptyLog := Log([], [], [], [], [], [], multiset{})

  function Initial(sel: Selector, now: real): State {
    State(Ownership(map[], false, false, map[], 0, false, {}, -REFRESH_INTERVAL), [], sel, EmptyLog, now)
  }

  predicate IsVenus(name: string) { VENUS_PREFIX <= name }

  function VenusOnly(names: set<string>): set<string> { set n | n in names && IsVenus(n) }

  /** The names one connection owns: the reverse of the owner table. */
  function NamesOf(services: map<string, string>, owner: string): set<string> {
    set n | n in services && services[n] == owner
  }

  /** `owners` is the exact reverse of `services`, with no empty sets. */
  ghost predicate IsReverse(owners: map<string, set<string>>, services: map<string, string>) {
    && (forall o :: o in owners <==> NamesOf(services, o) != {})
    && (forall o :: o in owners ==> owners[o] == NamesOf(services, o))
  }

  lemma NothingOwned()
    ensures IsReverse(map[], map[])
  {
    forall o ensures NamesOf(map[], o) == {} {}
  }

  predicate Fits(request: Request, reply: Reply) {
    reply.Error? || (if request.ListNames? then reply.Names? else reply.Owner?)
  }

  // ---- the refresh protocol ----

  /** Once nothing is outstanding the refresh window closes and its changes are forgotten. */
  function CloseWindow(o: Ownership): Ownership {
    if o.requests == map[] then o.(refreshing := false, changed := {}) else o
  }

  /** A failed request schedules an early retry. */
  function RetrySoon(o: Ownership, now: real): Ownership {
    o.(lastRefresh := now - REFRESH_INTERVAL + 5.0)
  }

  function CallDaemon(o: Ownership, request: Request, accepted: bool, now: real): Ownership {
    var o' := o.(nextToken := o.nextToken + 1);
    if accepted then o'.(requests := o.requests[o.nextToken := request])
    else CloseWindow(RetrySoon(o', now))
  }

  function Refresh(o: Ownership, accepted: bool, now: real): Ownership {
    if o.closed || o.refreshing || now - o.lastRefresh < REFRESH_INTERVAL then o
    else CallDaemon(o.(refreshing := true, lastRefresh := now, changed := {}), ListNames, accepted, now)
  }

  function Start(o: Ownership, accepted: bool, now: real): Ownership {
    if o.started || o.closed then o else Refresh(o.(started := true), accepted, now)
  }

  /** One `GetNameOwner` per name; `raised` are the names whose call raises at once. */
  function LookUp(o: Ownership, names: seq<string>, raised: set<string>, now: real): Ownership
    decreases |names|
  {
    if names == [] then o
    else LookUp(CallDaemon(o, GetNameOwner(names[0]), names[0] !in raised, now), names[1..], raised, now)
  }

  // ---- the queue ----

  function Expire(s: State, now: real): State {
    var test := Expired(now - PENDING_TTL);
    s.(pending := Leave(s.pending, test), log := s.log.(expired := s.log.expired + Take(s.pending, test)))
  }

  predicate HasRoom(p: seq<Batch>, n: nat) {
    |p| < MAX_PENDING_BATCHES && ItemCount(p) + n <= MAX_PENDING_ITEMS
  }

  /** How many batches must leave the head before one of `n` items fits. */
  function Excess(p: seq<Batch>, n: nat): (k: nat)
    ensures k <= |p|
  {
    if p == [] || HasRoom(p, n) then 0 else 1 + Excess(p[1..], n)
  }

  /** As few as possible: what stays fits, and with any one of the dropped batches kept it would not. */
  lemma {:induction false} ExcessIsLeast(p: seq<Batch>, n: nat, j: nat)
    requires j <= |p|
    ensures j == Excess(p, n) ==> p[j..] == [] || HasRoom(p[j..], n)
    ensures j < Excess(p, n) ==> p[j..] != [] && !HasRoom(p[j..], n)
  {
    if j > 0 {
      ExcessIsLeast(p[1..], n, j - 1);
      assert p[1..][j - 1..] == p[j..];
    } else {
      assert p[0..] == p;
    }
  }

  function Deliver(ds: seq<Delivery>, s: State): State {
    s.(log := s.log.(delivered := s.log.delivered + ds))
  }

  function Replay(s: State, owner: string, now: real): State {
    var s1 := Expire(s, now);
    var names := NamesOf(s.own.services, owner);
    Deliver(Handed(s1.pending, owner, names, s.sel),
            s1.(pending := Leave(s1.pending, Awaiting(owner, names, s.sel))))
  }

  // ---- the callbacks ----

  function Forget(s: State, names: set<string>): State {
    s.(own := s.own.(services := s.own.services - names),
       log := s.log.(invalidated := s.log.invalidated + multiset(names)))
  }

  /** The table entry of `name` changes; losing or replacing an owner invalidates the service. */
  function Rebind(s: State, name: string, owner: string): State {
    var services := s.own.services;
    var lost := if name in services && services[name] != owner then {name} else {};
    s.(own := s.own.(services := if owner == "" then services - {name} else services[name := owner]),
       log := s.log.(invalidated := s.log.invalidated + multiset(lost)))
  }

  function SetOwner(s: State, name: string, owner: string, now: real): State {
    if owner == "" then Rebind(s, name, owner) else Replay(Rebind(s, name, owner), owner, now)
  }

  function NameOwnerChanged(s: State, name: string, owner: string, now: real): State {
    if s.own.closed || !IsVenus(name) then s.(clock := now)
    else
      var changed := if s.own.refreshing then s.own.changed + {name} else s.own.changed;
      SetOwner(s.(own := s.own.(changed := changed), clock := now), name, owner, now)
  }

  function ListedNames(s: State, names: set<string>, raised: set<string>, now: real): State {
    var present := VenusOnly(names);
    var s1 := Forget(s, s.own.services.Keys - present - s.own.changed);
    s1.(own := LookUp(s1.own, Sorted(present - s.own.changed), raised, now))
  }

  function FoundOwner(s: State, name: string, owner: string, now: real): State {
    if name in s.own.changed then s else SetOwner(s, name, owner, now)
  }

  function Answer(s: State, request: Request, reply: Reply, raised: set<string>, now: real): State
    requires Fits(request, reply)
  {
    match reply
    case Error => s.(own := RetrySoon(s.own, now))
    case Names(names) => ListedNames(s, names, raised, now)
    case Owner(owner) => FoundOwner(s, request.name, owner, now)
  }

  function Complete(s: State, token: nat, request: Request, reply: Reply, raised: set<string>, now: real): State
    requires Fits(request, reply)
  {
    if s.own.closed then s.(clock := now)
    else
      var s1 := s.(own := s.own.(requests := s.own.requests - {token}), clock := now);
      var s2 := Answer(s1, request, reply, raised, now);
      s2.(own := CloseWindow(s2.own))
  }

  function Submit(s: State, owner: string, changed: Items, correlation: Option<string>, iface: string,
                  accepted: bool, now: real): State
  {
    if s.own.closed || changed == map[] then s.(clock := now)
    else
      var b := Batch(|s.log.submitted|, now, owner, changed, correlation, iface);
      var s0 := s.(log := s.log.(submitted := s.log.submitted + [b]), clock := now);
      var names := if IsVenus(owner) then {owner} else NamesOf(s.own.services, owner);
      match Select(s.sel, names, iface)
      case Some(service) => Deliver([Delivery(service, b)], s0)
      case None =>
        if IsVenus(owner) || !(":" <= owner) then s0.(log := s0.log.(ignored := s0.log.ignored + [b]))
        else Enqueue(s0, b, accepted, now)
  }

  function Enqueue(s: State, b: Batch, accepted: bool, now: real): State {
    var s1 := Expire(s.(own := Start(s.own, accepted, now)), now);
    if |b.changed| > MAX_PENDING_ITEMS then s1.(log := s1.log.(overflowed := s1.log.overflowed + [b]))
    else
      var k := Excess(s1.pending, |b.changed|);
      s1.(own := Refresh(s1.own, accepted, now),
          pending := s1.pending[k..] + [b],
          log := s1.log.(overflowed := s1.log.overflowed + s1.pending[..k]))
  }

  function Tick(s: State, accepted: bool, now: real): State {
    if s.own.closed then s.(clock := now)
    else
      var s1 := Expire(s.(clock := now), now);
      if s1.pending == [] then s1 else s1.(own := Refresh(s1.own, accepted, now))
  }

  function Stop(s: State): State {
    s.(own := s.own.(closed := true, started := false, requests := map[], changed := {}, services := map[]),
       pending := [],
       log := s.log.(discarded := s.log.discarded + s.pending))
  }
}
