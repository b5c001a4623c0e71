// The tracker together with the bus daemon: name ownership changes, lifecycle signals queue in
// order, and every request is answered, delivered or timed out at any moment of the run.
module OwnerProtocol {
  import opened Wrappers
  import opened Lexicographic
  import opened Selection
  import opened Batches
  import opened OwnerState

  datatype Signal = Signal(name: string, owner: string)

  /** A reply the daemon has sent and the client not yet received. */
  datatype Answered = Answered(request: Request, reply: Reply)

  /**
   * `clean` says that the latest refresh has so far lost no request; `synced`, that some refresh
   * ran to its end that way.
   */
  datatype System = System(
    tracker: State,
    daemon: map<string, string>,
    signals: seq<Signal>,
    answers: map<nat, Answered>,
    clean: bool,
    synced: bool)

  datatype Event =
    | OwnerChanges(name: string, owner: string)
    | DaemonAnswers(token: nat)
    | SignalArrives(now: real)
    | ReplyArrives(token: nat, raised: set<string>, now: real)
    | TimesOut(token: nat, now: real)
    | Starts(accepted: bool, now: real)
    | Submits(owner: string, items: Items, correlation: Option<string>, iface: string, accepted: bool, now: real)
    | Ticks(accepted: bool, now: real)
    | Subscribes(sel: Selector)
    | Stops

  function OwnerAt(table: map<string, string>, name: string): string {
    if name in table then table[name] else ""
  }

  function Bind(table: map<string, string>, name: string, owner: string): map<string, string> {
    if owner == "" then table - {name} else table[name := owner]
  }

  ghost function Daemon(daemon: map<string, string>, request: Request): Reply {
    match request
    case ListNames => Names(daemon.Keys)
    case GetNameOwner(name) => if name in daemon then Owner(daemon[name]) else Error
  }

  /** The lookups a `ListNames` reply leads to. */
  function Lookups(o: Ownership, names: set<string>): set<string> { VenusOnly(names) - o.changed }

  /**
   * A `GetNameOwner` call may raise instead of being queued. The refresh window survives that
   * unless the first of several lookups raises while nothing else is outstanding.
   */
  predicate WindowKept(o: Ownership, names: seq<string>, raised: set<string>) {
    o.requests != map[] || names == [] || names[0] !in raised || forall n :: n in names ==> n in raised
  }

  /** The event can happen at all. */
  ghost predicate CanHappen(y: System, e: Event) {
    var own := y.tracker.own;
    match e
    case OwnerChanges(name, owner) => OwnerAt(y.daemon, name) != owner
    case DaemonAnswers(token) => token in own.requests && token !in y.answers
    case SignalArrives(now) => y.signals != [] && y.tracker.clock <= now
    case ReplyArrives(token, raised, now) =>
      && token in y.answers && y.tracker.clock <= now
      && Fits(y.answers[token].request, y.answers[token].reply)
    case TimesOut(token, now) => token in own.requests && y.tracker.clock <= now
    case Starts(_, now) => y.tracker.clock <= now
    case Submits(_, _, _, _, _, now) => y.tracker.clock <= now
    case Ticks(_, now) => (own.started || own.closed) && y.tracker.clock <= now
    case Subscribes(_) => true
    case Stops => true
  }

  /** It does not end a refresh too early. */
  ghost predicate KeepsWindow(y: System, e: Event) {
    e.ReplyArrives? && e.token in y.answers && y.answers[e.token].reply.Names? ==>
      WindowKept(y.tracker.own.(requests := y.tracker.own.requests - {e.token}),
                 Sorted(Lookups(y.tracker.own, y.answers[e.token].reply.names)), e.raised)
  }

  ghost predicate Enabled(y: System, e: Event) { CanHappen(y, e) && KeepsWindow(y, e) }

  /** The tracker's part of an event. */
  ghost function React(y: System, e: Event): State
    requires CanHappen(y, e)
  {
    var s := y.tracker;
    match e
    case OwnerChanges(_, _) => s
    case DaemonAnswers(_) => s
    case SignalArrives(now) => NameOwnerChanged(s, y.signals[0].name, y.signals[0].owner, now)
    case ReplyArrives(token, raised, now) =>
      Complete(s, token, y.answers[token].request, y.answers[token].reply, raised, now)
    case TimesOut(token, now) => Complete(s, token, s.own.requests[token], Error, {}, now)
    case Starts(accepted, now) => s.(own := Start(s.own, accepted, now), clock := now)
    case Submits(owner, items, correlation, iface, accepted, now) =>
      Submit(s, owner, items, correlation, iface, accepted, now)
    case Ticks(accepted, now) => Tick(s, accepted, now)
    case Subscribes(sel) => s.(sel := sel)
    case Stops => Stop(s)
  }

  /** Whether the latest refresh is still without loss after the event. */
  ghost function Clean(y: System, e: Event): bool
    requires CanHappen(y, e)
  {
    match e
    case TimesOut(_, _) => false
    case ReplyArrives(token, raised, _) =>
      y.clean && (y.answers[token].reply.Names? ==> Lookups(y.tracker.own, y.answers[token].reply.names) !! raised)
    case Starts(accepted, _) => y.clean || (accepted && React(y, e).own.nextToken > y.tracker.own.nextToken)
    case Submits(_, _, _, _, accepted, _) =>
      y.clean || (accepted && React(y, e).own.nextToken > y.tracker.own.nextToken)
    case Ticks(accepted, _) => y.clean || (accepted && React(y, e).own.nextToken > y.tracker.own.nextToken)
    case _ => y.clean
  }

  ghost function Step(y: System, e: Event): System
    requires CanHappen(y, e)
  {
    var tracker := React(y, e);
    var clean := Clean(y, e);
    var synced := y.synced || (clean && tracker.own.requests == map[]);
    match e
    case OwnerChanges(name, owner) =>
      y.(daemon := Bind(y.daemon, name, owner),
         signals := if y.tracker.own.started then y.signals + [Signal(name, owner)] else y.signals,
         synced := synced)
    case DaemonAnswers(token) =>
      var request := y.tracker.own.requests[token];
      y.(answers := y.answers[token := Answered(request, Daemon(y.daemon, request))], synced := synced)
    case SignalArrives(_) => y.(tracker := tracker, signals := y.signals[1..], synced := synced)
    case ReplyArrives(token, _, _) =>
      y.(tracker := tracker, answers := y.answers - {token}, clean := clean, synced := synced)
    case TimesOut(token, _) =>
      y.(tracker := tracker, answers := y.answers - {token}, clean := clean, synced := synced)
    case _ => y.(tracker := tracker, clean := clean, synced := synced)
  }

  ghost function Start0(sel: Selector, daemon: map<string, string>, now: real): System {
    System(Initial(sel, now), daemon, [], map[], false, false)
  }

  /** Every event of the run can happen where it does. */
  ghost predicate Possible(y: System, run: seq<Event>)
    decreases |run|
  {
    run == [] || (CanHappen(y, run[0]) && Possible(Step(y, run[0]), run[1..]))
  }

  ghost function After(y: System, run: seq<Event>): System
    requires Possible(y, run)
    decreases |run|
  {
    if run == [] then y else After(Step(y, run[0]), run[1..])
  }

  /** No event of the run ends a refresh too early. */
  ghost predicate WindowsStay(y: System, run: seq<Event>)
    requires Possible(y, run)
    decreases |run|
  {
    run == [] || (KeepsWindow(y, run[0]) && WindowsStay(Step(y, run[0]), run[1..]))
  }

  /** One more event at the front. */
  lemma Then(y: System, e: Event, run: seq<Event>)
    requires CanHappen(y, e) && Possible(Step(y, e), run)
    ensures Possible(y, [e] + run) && After(y, [e] + run) == After(Step(y, e), run)
    ensures WindowsStay(y, [e] + run) <==> KeepsWindow(y, e) && WindowsStay(Step(y, e), run)
  {
    assert ([e] + run)[0] == e && ([e] + run)[1..] == run;
  }

  // ---- the invariant ----

  ghost predicate Due(signals: seq<Signal>, name: string) {
    exists i :: 0 <= i < |signals| && signals[i].name == name
  }

  ghost function LastOwner(signals: seq<Signal>, name: string): string
    requires Due(signals, name)
  {
    var last := signals[|signals| - 1];
    if last.name == name then last.owner else LastOwner(signals[..|signals| - 1], name)
  }

  ghost predicate Agrees(y: System, name: string) {
    OwnerAt(y.tracker.own.services, name) == OwnerAt(y.daemon, name)
  }

  /** A lifecycle signal for the name has been seen in this window or is on its way. */
  ghost predicate Superseded(y: System, name: string) {
    name in y.tracker.own.changed || Due(y.signals, name)
  }

  ghost predicate Asked(o: Ownership, token: nat, name: string) {
    token in o.requests && (o.requests[token] == ListNames || o.requests[token] == GetNameOwner(name))
  }

  ghost predicate NameOk(y: System, name: string) {
    && (Due(y.signals, name) ==> LastOwner(y.signals, name) == OwnerAt(y.daemon, name))
    && (IsVenus(name) && name in y.tracker.own.changed ==> Due(y.signals, name) || Agrees(y, name))
    && (IsVenus(name) && y.clean ==>
          Due(y.signals, name) || Agrees(y, name) || exists t :: Asked(y.tracker.own, t, name))
    && (IsVenus(name) && y.synced ==> Due(y.signals, name) || Agrees(y, name))
  }

  ghost predicate SnapshotOk(y: System, names: set<string>, name: string) {
    IsVenus(name) ==> Superseded(y, name) || (name in names <==> name in y.daemon)
  }

  ghost predicate RequestOk(y: System, request: Request) {
    request.GetNameOwner? ==>
      IsVenus(request.name) && (Superseded(y, request.name) || request.name in y.daemon)
  }

  ghost predicate ReplyOk(y: System, a: Answered) {
    match a.reply
    case Names(names) => a.request.ListNames? && forall n :: SnapshotOk(y, names, n)
    case Owner(owner) =>
      a.request.GetNameOwner? && owner != ""
        && (Superseded(y, a.request.name) || OwnerAt(y.daemon, a.request.name) == owner)
    case Error => a.request.GetNameOwner? && Superseded(y, a.request.name)
  }

  ghost predicate Shape(y: System) {
    var o := y.tracker.own;
    && (o.requests != map[] ==> o.refreshing && o.started)
    && (!o.started ==> o.services == map[] && o.changed == {} && y.signals == [] && !y.synced && !y.clean)
    && (forall n :: n in o.services ==> IsVenus(n) && o.services[n] != "")
    && (forall n :: n in y.daemon ==> y.daemon[n] != "")
    && (forall t :: t in o.requests ==> t < o.nextToken)
    && (forall t :: t in y.answers ==> t in o.requests && y.answers[t].request == o.requests[t])
  }

  ghost predicate Core(y: System) {
    && Shape(y)
    && (forall n :: NameOk(y, n))
    && (forall t :: t in y.tracker.own.requests ==> RequestOk(y, y.tracker.own.requests[t]))
    && (forall t :: t in y.answers ==> ReplyOk(y, y.answers[t]))
  }

  ghost predicate Inv(y: System) {
    !y.tracker.own.closed ==> Core(y) && (y.clean && y.tracker.own.requests == map[] ==> y.synced)
  }
}
