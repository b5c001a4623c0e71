// The tracker's table against the daemon's, over every run of the protocol.
module OwnerAgreement {
  import opened Wrappers
  import opened Lexicographic
  import opened Selection
  import opened Batches
  import opened OwnerState
  import opened OwnerProtocol

  // ---- what each callback does to the owner table ----

  lemma SetOwnerTable(s: State, name: string, owner: string, now: real)
    ensures SetOwner(s, name, owner, now).own == s.own.(services := Bind(s.own.services, name, owner))
    ensures SetOwner(s, name, owner, now).clock == s.clock
  {
  }

  ghost predicate Extended(o: Ownership, o': Ownership, names: seq<string>, raised: set<string>) {
    && o' == o.(requests := o'.requests, nextToken := o'.nextToken, lastRefresh := o'.lastRefresh)
    && (o.nextToken <= o'.nextToken)
    && (forall t :: t in o.requests ==> t in o'.requests && o'.requests[t] == o.requests[t])
    && (forall t :: t in o'.requests && t !in o.requests ==>
          t < o'.nextToken && o'.requests[t].GetNameOwner? && o'.requests[t].name in names)
    && (forall n :: n in names && n !in raised ==> exists t :: Asked(o', t, n))
  }

  /** While something is outstanding, looking names up only adds requests. */
  lemma {:induction false} LookUpExtends(o: Ownership, names: seq<string>, raised: set<string>, now: real)
    requires o.requests != map[] && forall t :: t in o.requests ==> t < o.nextToken
    ensures Extended(o, LookUp(o, names, raised, now), names, raised)
    decreases |names|
  {
    if names != [] {
      var n, rest := names[0], names[1..];
      var o1 := CallDaemon(o, GetNameOwner(n), n !in raised, now);
      assert forall t :: t in o.requests ==> t in o1.requests;
      LookUpExtends(o1, rest, raised, now);
      var o' := LookUp(o1, rest, raised, now);
      if n !in raised {
        assert Asked(o', o.nextToken, n);
      }
      forall m | m in names && m !in raised ensures exists t :: Asked(o', t, m) {
        assert m == n || m in rest;
      }
    }
  }

  /** If every lookup raises, nothing stays outstanding and the window is closed. */
  lemma {:induction false} LookUpAllRaise(o: Ownership, names: seq<string>, raised: set<string>, now: real)
    requires o.requests == map[] && names != [] && forall n :: n in names ==> n in raised
    ensures var o' := LookUp(o, names, raised, now);
            o' == o.(refreshing := false, changed := {}, nextToken := o'.nextToken, lastRefresh := o'.lastRefresh)
    decreases |names|
  {
    var o1 := CallDaemon(o, GetNameOwner(names[0]), false, now);
    if names[1..] != [] {
      LookUpAllRaise(o1, names[1..], raised, now);
    }
  }

  lemma {:induction false} LookUpNeverReopens(o: Ownership, names: seq<string>, raised: set<string>, now: real)
    requires !o.refreshing
    ensures !LookUp(o, names, raised, now).refreshing
    ensures (exists n :: n in names && n !in raised) || o.requests != map[]
            ==> LookUp(o, names, raised, now).requests != map[]
    decreases |names|
  {
    if names != [] {
      var o1 := CallDaemon(o, GetNameOwner(names[0]), names[0] !in raised, now);
      if names[0] !in raised {
        assert o.nextToken in o1.requests;
      }
      LookUpNeverReopens(o1, names[1..], raised, now);
    }
  }

  /**
   * Exactly when the lookups leave the refresh window open for as long as one of them is
   * outstanding. The first lookup raising while a later one is queued closes it too early.
   */
  lemma WindowStaysOpen(o: Ownership, names: seq<string>, raised: set<string>, now: real)
    requires o.refreshing && forall t :: t in o.requests ==> t < o.nextToken
    ensures var o' := LookUp(o, names, raised, now);
            (o'.requests != map[] ==> o'.refreshing) <==> WindowKept(o, names, raised)
  {
    if o.requests != map[] {
      LookUpExtends(o, names, raised, now);
    } else if names != [] {
      var o1 := CallDaemon(o, GetNameOwner(names[0]), names[0] !in raised, now);
      if names[0] !in raised {
        assert o.nextToken in o1.requests;
        LookUpExtends(o1, names[1..], raised, now);
      } else if forall n :: n in names ==> n in raised {
        LookUpAllRaise(o, names, raised, now);
      } else {
        var n :| n in names && n !in raised;
        assert n in names[1..];
        LookUpNeverReopens(o1, names[1..], raised, now);
      }
    }
  }

  // ---- queues of signals ----

  lemma LastOwnerAppend(signals: seq<Signal>, x: Signal, name: string)
    ensures Due(signals + [x], name) <==> x.name == name || Due(signals, name)
    ensures x.name == name ==> LastOwner(signals + [x], name) == x.owner
    ensures x.name != name && Due(signals, name) ==> LastOwner(signals + [x], name) == LastOwner(signals, name)
  {
    var more := signals + [x];
    assert more[..|more| - 1] == signals && more[|signals|] == x;
    forall i | 0 <= i < |signals| ensures more[i] == signals[i] {}
  }

  lemma {:induction false} LastOwnerTail(signals: seq<Signal>, name: string)
    requires signals != [] && Due(signals, name)
    ensures Due(signals[1..], name) ==> LastOwner(signals[1..], name) == LastOwner(signals, name)
    ensures !Due(signals[1..], name) ==> signals[0].name == name && LastOwner(signals, name) == signals[0].owner
    decreases |signals|
  {
    var n := |signals| - 1;
    var tail := signals[1..];
    if signals[n].name == name {
      if n > 0 { assert tail[n - 1].name == name; }
    } else {
      assert n > 0 && tail[n - 1] == signals[n];
      assert tail[..|tail| - 1] == signals[..n][1..];
      assert Due(signals[..n], name);
      LastOwnerTail(signals[..n], name);
      if Due(signals[..n][1..], name) {
        var i :| 0 <= i < |signals[..n][1..]| && signals[..n][1..][i].name == name;
        assert tail[i].name == name;
      }
    }
  }

  lemma DueTail(signals: seq<Signal>, name: string)
    requires signals != []
    ensures Due(signals[1..], name) ==> Due(signals, name)
    ensures Due(signals, name) && signals[0].name != name ==> Due(signals[1..], name)
  {
    var tail := signals[1..];
    if Due(tail, name) {
      var i :| 0 <= i < |tail| && tail[i].name == name;
      assert signals[i + 1].name == name;
    }
    if Due(signals, name) && signals[0].name != name {
      var i :| 0 <= i < |signals| && signals[i].name == name;
      assert tail[i - 1].name == name;
    }
  }

  // ---- one event at a time ----

  /** The invariant looks at the owner table and the messages, not at the queue of batches. */
  lemma SameTable(y: System, y': System)
    requires Inv(y) && y' == y.(tracker := y'.tracker) && y'.tracker.own == y.tracker.own
    ensures Inv(y')
  {
    if !y.tracker.own.closed {
      forall n ensures NameOk(y', n) { assert NameOk(y, n); }
      forall t | t in y.answers ensures ReplyOk(y', y.answers[t]) {
        assert ReplyOk(y, y.answers[t]);
        SameSnapshot(y, y', y.answers[t]);
      }
      forall t | t in y.tracker.own.requests ensures RequestOk(y', y.tracker.own.requests[t]) {
        assert RequestOk(y, y.tracker.own.requests[t]);
      }
    }
  }

  /** A reply stays acceptable as long as no name loses the mark that it has been superseded. */
  lemma SameSnapshot(y: System, y': System, a: Answered)
    requires ReplyOk(y, a)
    requires forall n :: IsVenus(n) && Superseded(y, n) ==> Superseded(y', n)
    requires forall n :: IsVenus(n) ==> Superseded(y', n) || OwnerAt(y'.daemon, n) == OwnerAt(y.daemon, n)
    requires forall n :: IsVenus(n) ==> Superseded(y', n) || (n in y'.daemon <==> n in y.daemon)
    requires a.request.GetNameOwner? ==> IsVenus(a.request.name)
    ensures ReplyOk(y', a)
  {
    if a.reply.Names? {
      forall n ensures SnapshotOk(y', a.reply.names, n) { assert SnapshotOk(y, a.reply.names, n); }
    }
  }

  lemma OwnerChangesKeeps(y: System, e: Event)
    requires Inv(y) && e.OwnerChanges? && Enabled(y, e)
    ensures Inv(Step(y, e))
  {
    var y' := Step(y, e);
    var own := y.tracker.own;
    if !own.closed {
      forall n ensures Due(y.signals, n) ==> Due(y'.signals, n)
        ensures own.started && n == e.name ==> Due(y'.signals, n)
        ensures n != e.name ==> OwnerAt(y'.daemon, n) == OwnerAt(y.daemon, n)
        ensures n != e.name ==> (n in y'.daemon <==> n in y.daemon)
        ensures NameOk(y', n)
      {
        assert NameOk(y, n);
        LastOwnerAppend(y.signals, Signal(e.name, e.owner), n);
      }
      forall t | t in y'.answers ensures ReplyOk(y', y'.answers[t]) {
        assert RequestOk(y, own.requests[t]);
        SameSnapshot(y, y', y.answers[t]);
      }
      forall t | t in y'.tracker.own.requests ensures RequestOk(y', y'.tracker.own.requests[t]) {
        assert RequestOk(y, own.requests[t]);
      }
    }
  }

  lemma DaemonAnswersKeeps(y: System, e: Event)
    requires Inv(y) && e.DaemonAnswers? && Enabled(y, e)
    ensures Inv(Step(y, e))
  {
    var y' := Step(y, e);
    if !y.tracker.own.closed {
      forall n ensures NameOk(y', n) { assert NameOk(y, n); }
      forall t | t in y'.answers ensures ReplyOk(y', y'.answers[t]) {
        assert RequestOk(y, y.tracker.own.requests[t]);
        if t != e.token {
          SameSnapshot(y, y', y.answers[t]);
        }
      }
      forall t | t in y'.tracker.own.requests ensures RequestOk(y', y'.tracker.own.requests[t]) {
        assert RequestOk(y, y.tracker.own.requests[t]);
      }
    }
  }

  lemma SignalTable(y: System, e: Event)
    requires e.SignalArrives? && Enabled(y, e) && !y.tracker.own.closed
    ensures var x := y.signals[0]; var own, own' := y.tracker.own, Step(y, e).tracker.own;
            own' == if !IsVenus(x.name) then own else
              own.(changed := if own.refreshing then own.changed + {x.name} else own.changed,
                   services := Bind(own.services, x.name, x.owner))
  {
    var own := y.tracker.own;
    var x := y.signals[0];
    var changed := if own.refreshing then own.changed + {x.name} else own.changed;
    if IsVenus(x.name) {
      SetOwnerTable(y.tracker.(own := own.(changed := changed), clock := e.now), x.name, x.owner, e.now);
    }
  }

  lemma SignalKeepsName(y: System, e: Event, n: string)
    requires Inv(y) && e.SignalArrives? && Enabled(y, e) && !y.tracker.own.closed
    ensures NameOk(Step(y, e), n)
    ensures IsVenus(n) && y.tracker.own.refreshing && Superseded(y, n) ==> Superseded(Step(y, e), n)
  {
    var own, own' := y.tracker.own, Step(y, e).tracker.own;
    SignalTable(y, e);
    assert NameOk(y, n);
    DueTail(y.signals, n);
    if Due(y.signals, n) {
      LastOwnerTail(y.signals, n);
    }
    forall t | Asked(own, t, n) ensures Asked(own', t, n) {}
  }

  lemma SignalArrivesKeeps(y: System, e: Event)
    requires Inv(y) && e.SignalArrives? && Enabled(y, e)
    ensures Inv(Step(y, e))
  {
    hide NameOk, LastOwner, Due;
    var y' := Step(y, e);
    var own, own' := y.tracker.own, y'.tracker.own;
    if !own.closed {
      SignalTable(y, e);
      forall n ensures NameOk(y', n)
        ensures IsVenus(n) && own.refreshing && Superseded(y, n) ==> Superseded(y', n)
      {
        SignalKeepsName(y, e, n);
      }
      forall t | t in y'.answers ensures ReplyOk(y', y'.answers[t]) {
        assert RequestOk(y, own.requests[t]);
        SameSnapshot(y, y', y.answers[t]);
      }
      forall t | t in own'.requests ensures RequestOk(y', own'.requests[t]) {
        assert RequestOk(y, own.requests[t]);
      }
    }
  }

  // ---- starting a refresh ----

  ghost function Advance(y: System, own: Ownership, accepted: bool): System {
    var clean := y.clean || (accepted && own.nextToken > y.tracker.own.nextToken);
    y.(tracker := y.tracker.(own := own), clean := clean, synced := y.synced || (clean && own.requests == map[]))
  }

  lemma RefreshKeeps(y: System, accepted: bool, now: real)
    requires Inv(y) && y.tracker.own.started && !y.tracker.own.closed
    ensures Inv(Advance(y, Refresh(y.tracker.own, accepted, now), accepted))
  {
    var own := y.tracker.own;
    var y' := Advance(y, Refresh(own, accepted, now), accepted);
    var own' := y'.tracker.own;
    if own.refreshing || now - own.lastRefresh < REFRESH_INTERVAL {
      assert own' == own;
      SameTable(y, y');
    } else {
      assert own.requests == map[] && y.answers == map[];
      forall n ensures NameOk(y', n) {
        assert NameOk(y, n);
        if accepted { assert Asked(own', own.nextToken, n); }
      }
    }
  }

  lemma StartKeeps(y: System, accepted: bool, now: real)
    requires Inv(y) && !y.tracker.own.closed
    ensures Inv(Advance(y, Start(y.tracker.own, accepted, now), accepted))
    ensures Start(y.tracker.own, accepted, now).started && !Start(y.tracker.own, accepted, now).closed
  {
    var own := y.tracker.own;
    if own.started {
      SameTable(y, Advance(y, own, accepted));
    } else {
      var y0 := y.(tracker := y.tracker.(own := own.(started := true)));
      forall n ensures NameOk(y0, n) { assert NameOk(y, n); }
      RefreshKeeps(y0, accepted, now);
      assert Advance(y0, Refresh(y0.tracker.own, accepted, now), accepted)
          == Advance(y, Start(own, accepted, now), accepted);
    }
  }

  lemma SubmitTable(s: State, owner: string, items: Items, correlation: Option<string>, iface: string,
                    accepted: bool, now: real)
    ensures var own' := Submit(s, owner, items, correlation, iface, accepted, now).own;
            || own' == s.own
            || (!s.own.closed && own' == Start(s.own, accepted, now))
            || (!s.own.closed && own' == Refresh(Start(s.own, accepted, now), accepted, now))
  {
  }

  lemma RefreshesKeep(y: System, e: Event)
    requires Inv(y) && (e.Starts? || e.Submits? || e.Ticks?) && Enabled(y, e)
    ensures Inv(Step(y, e))
  {
    var y' := Step(y, e);
    var own, own' := y.tracker.own, y'.tracker.own;
    if own.closed {
    } else if own' == own {
      SameTable(y, y');
    } else if e.Ticks? {
      RefreshKeeps(y, e.accepted, e.now);
      SameTable(Advance(y, own', e.accepted), y');
    } else {
      StartsOrSubmits(y, e);
    }
  }

  lemma StartsOrSubmits(y: System, e: Event)
    requires Inv(y) && (e.Starts? || e.Submits?) && Enabled(y, e)
    requires !y.tracker.own.closed && Step(y, e).tracker.own != y.tracker.own
    ensures Inv(Step(y, e))
  {
    var y' := Step(y, e);
    var own' := y'.tracker.own;
    StartKeeps(y, e.accepted, e.now);
    var own1 := Start(y.tracker.own, e.accepted, e.now);
    var y1 := Advance(y, own1, e.accepted);
    if own' == own1 {
      SameTable(y1, y');
    } else {
      SubmitTable(y.tracker, e.owner, e.items, e.correlation, e.iface, e.accepted, e.now);
      RefreshKeeps(y1, e.accepted, e.now);
      SameTable(Advance(y1, own', e.accepted), y');
    }
  }

  // ---- completing a request ----

  /** Closing the window loses nothing: with no request left every name agrees or has a signal due. */
  lemma CloseWindowKeeps(y: System, y': System)
    requires Core(y) && !y.tracker.own.closed
    requires y' == y.(tracker := y'.tracker, synced := y.synced || (y.clean && y.tracker.own.requests == map[]))
    requires y'.tracker.own == CloseWindow(y.tracker.own)
    ensures Inv(y')
  {
    var own := y.tracker.own;
    forall n ensures NameOk(y', n) {
      assert NameOk(y, n);
      forall t | Asked(own, t, n) ensures Asked(y'.tracker.own, t, n) {}
    }
    forall t | t in y'.answers ensures ReplyOk(y', y'.answers[t]) {
      assert RequestOk(y, own.requests[t]);
      SameSnapshot(y, y', y.answers[t]);
    }
    forall t | t in y'.tracker.own.requests ensures RequestOk(y', y'.tracker.own.requests[t]) {
      assert RequestOk(y, own.requests[t]);
    }
  }

  /** What the completed request leaves behind, before its answer is acted on. */
  ghost function Popped(y: System, token: nat, clean: bool, now: real): System {
    var own := y.tracker.own;
    y.(tracker := y.tracker.(own := own.(requests := own.requests - {token}), clock := now),
       answers := y.answers - {token}, clean := clean)
  }

  /** Replies and requests still outstanding stay acceptable while `changed` and the daemon do not move. */
  lemma OthersKeep(y: System, y2: System, token: nat)
    requires Inv(y) && !y.tracker.own.closed && y2.answers == y.answers - {token}
    requires y2.daemon == y.daemon && y2.signals == y.signals && y2.tracker.own.changed == y.tracker.own.changed
    ensures forall t :: t in y2.answers ==> ReplyOk(y2, y2.answers[t])
    ensures forall t :: t in y.tracker.own.requests ==> RequestOk(y2, y.tracker.own.requests[t])
  {
    forall t | t in y.tracker.own.requests ensures RequestOk(y2, y.tracker.own.requests[t]) {
      assert RequestOk(y, y.tracker.own.requests[t]);
    }
    forall t | t in y2.answers ensures ReplyOk(y2, y2.answers[t]) {
      assert RequestOk(y, y.tracker.own.requests[t]);
      SameSnapshot(y, y2, y.answers[t]);
    }
  }

  lemma StillAsked(y: System, y2: System, token: nat, name: string)
    requires token in y.tracker.own.requests && y.tracker.own.requests[token] == GetNameOwner(name)
    requires y2.tracker.own.requests == y.tracker.own.requests - {token}
    ensures forall n, t :: n != name && Asked(y.tracker.own, t, n) ==> Asked(y2.tracker.own, t, n)
  {
  }

  /** A lookup that found an owner, or found that the name has none. */
  lemma LookupCompletes(y: System, e: Event)
    requires Inv(y) && e.ReplyArrives? && Enabled(y, e) && !y.tracker.own.closed && !y.answers[e.token].reply.Names?
    ensures Inv(Step(y, e))
  {
    hide LastOwner, SetOwner;
    var own, a := y.tracker.own, y.answers[e.token];
    var name := a.request.name;
    var y1 := Popped(y, e.token, y.clean, e.now);
    var s2 := Answer(y1.tracker, a.request, a.reply, e.raised, e.now);
    var y2 := y1.(tracker := s2);
    if a.reply.Owner? {
      SetOwnerTable(y1.tracker, name, a.reply.owner, e.now);
    }
    OthersKeep(y, y2, e.token);
    StillAsked(y, y2, e.token, name);
    assert ReplyOk(y, a) && RequestOk(y, own.requests[e.token]);
    forall n ensures NameOk(y2, n) {
      assert NameOk(y, n);
      assert n != name ==> OwnerAt(s2.own.services, n) == OwnerAt(own.services, n);
    }
    CloseWindowKeeps(y2, Step(y, e));
  }

  lemma TimesOutKeeps(y: System, e: Event)
    requires Inv(y) && e.TimesOut? && Enabled(y, e)
    ensures Inv(Step(y, e))
  {
    if !y.tracker.own.closed {
      var y1 := Popped(y, e.token, false, e.now);
      var y2 := y1.(tracker := y1.tracker.(own := RetrySoon(y1.tracker.own, e.now)));
      OthersKeep(y, y2, e.token);
      forall n ensures NameOk(y2, n) { assert NameOk(y, n); }
      CloseWindowKeeps(y2, Step(y, e));
    }
  }

  lemma LookUpKept(o: Ownership, names: seq<string>, raised: set<string>, now: real)
    requires WindowKept(o, names, raised) && forall t :: t in o.requests ==> t < o.nextToken
    ensures var o' := LookUp(o, names, raised, now);
            || Extended(o, o', names, raised)
            || (names != [] && (forall n :: n in names ==> n in raised) && o.requests == map[]
                && o' == o.(refreshing := false, changed := {}, nextToken := o'.nextToken,
                  lastRefresh := o'.lastRefresh))
  {
    if o.requests != map[] {
      LookUpExtends(o, names, raised, now);
    } else if names != [] {
      if names[0] in raised {
        LookUpAllRaise(o, names, raised, now);
      } else {
        var o1 := CallDaemon(o, GetNameOwner(names[0]), true, now);
        assert o.nextToken in o1.requests;
        LookUpExtends(o1, names[1..], raised, now);
        var o' := LookUp(o, names, raised, now);
        assert Asked(o', o.nextToken, names[0]);
        forall m | m in names && m !in raised ensures exists t :: Asked(o', t, m) {
          assert m == names[0] || m in names[1..];
        }
      }
    }
  }

  /** After the snapshot each Venus name agrees, has a signal due, or is being looked up. */
  lemma SnapshotName(y: System, y2: System, token: nat, names: set<string>, raised: set<string>, n: string)
    requires Inv(y) && !y.tracker.own.closed && token in y.answers && y.answers[token].reply == Names(names)
    requires y2.daemon == y.daemon && y2.signals == y.signals && y2.synced == y.synced
    requires y2.clean == (y.clean && Lookups(y.tracker.own, names) !! raised)
    requires y2.tracker.own.services == y.tracker.own.services
             - (y.tracker.own.services.Keys - VenusOnly(names) - y.tracker.own.changed)
    requires y2.tracker.own.changed == y.tracker.own.changed || (y2.tracker.own.changed == {} && !y2.clean)
    requires y2.clean ==> forall m :: m in Lookups(y.tracker.own, names) ==> exists t :: Asked(y2.tracker.own, t, m)
    ensures NameOk(y2, n)
  {
    assert NameOk(y, n) && ReplyOk(y, y.answers[token]) && SnapshotOk(y, names, n);
    if IsVenus(n) && !Superseded(y, n) {
      if n in names {
        assert n in Lookups(y.tracker.own, names);
      } else {
        assert n !in y2.tracker.own.services && n !in y.daemon;
      }
    }
  }

  /** The lookups a snapshot leads to ask for names the daemon has, unless a signal supersedes the answer. */
  lemma SnapshotRequests(y: System, y2: System, token: nat, names: set<string>, o1: Ownership, raised: set<string>)
    requires Inv(y) && !y.tracker.own.closed && token in y.answers && y.answers[token].reply == Names(names)
    requires y2.answers == y.answers - {token} && y2.daemon == y.daemon && y2.signals == y.signals
    requires y2.tracker.own.changed == y.tracker.own.changed && o1.requests == y.tracker.own.requests - {token}
    requires Extended(o1, y2.tracker.own, Sorted(Lookups(y.tracker.own, names)), raised)
    ensures forall t :: t in y2.answers ==> ReplyOk(y2, y2.answers[t])
    ensures forall t :: t in y2.tracker.own.requests ==> RequestOk(y2, y2.tracker.own.requests[t])
  {
    var o2 := y2.tracker.own;
    OthersKeep(y, y2, token);
    forall t | t in o2.requests ensures RequestOk(y2, o2.requests[t]) {
      if t !in o1.requests {
        var n := o2.requests[t].name;
        assert n in Lookups(y.tracker.own, names) && ReplyOk(y, y.answers[token]) && SnapshotOk(y, names, n);
      }
    }
  }

  /** The system once the snapshot is applied and its lookups are sent, the window not yet closed. */
  ghost function Applied(y: System, token: nat, names: set<string>, raised: set<string>, now: real): System {
    var y1 := Popped(y, token, y.clean && Lookups(y.tracker.own, names) !! raised, now);
    y1.(tracker := ListedNames(y1.tracker, names, raised, now))
  }

  lemma SnapshotApplied(y: System, token: nat, names: set<string>, raised: set<string>, now: real)
    requires Inv(y) && !y.tracker.own.closed && token in y.answers && y.answers[token].reply == Names(names)
    requires WindowKept(y.tracker.own.(requests := y.tracker.own.requests - {token}),
                        Sorted(Lookups(y.tracker.own, names)), raised)
    ensures Core(Applied(y, token, names, raised, now)) && !Applied(y, token, names, raised, now).tracker.own.closed
  {
    var own, order := y.tracker.own, Sorted(Lookups(y.tracker.own, names));
    var y2 := Applied(y, token, names, raised, now);
    var o1 := own.(requests := own.requests - {token},
                   services := own.services - (own.services.Keys - VenusOnly(names) - own.changed));
    assert y2.tracker.own == LookUp(o1, order, raised, now);
    LookUpKept(o1, order, raised, now);
    if Extended(o1, y2.tracker.own, order, raised) {
      SnapshotRequests(y, y2, token, names, o1, raised);
    } else {
      assert order[0] in Lookups(own, names) && order[0] in raised;
    }
    forall n ensures NameOk(y2, n) { SnapshotName(y, y2, token, names, raised, n); }
  }

  lemma SnapshotArrives(y: System, e: Event)
    requires Inv(y) && e.ReplyArrives? && Enabled(y, e) && !y.tracker.own.closed && y.answers[e.token].reply.Names?
    ensures Inv(Step(y, e))
  {
    var names := y.answers[e.token].reply.names;
    SnapshotApplied(y, e.token, names, e.raised, e.now);
    CloseWindowKeeps(Applied(y, e.token, names, e.raised, e.now), Step(y, e));
  }

  // ---- whole runs ----

  lemma StepKeeps(y: System, e: Event)
    requires Inv(y) && Enabled(y, e)
    ensures Inv(Step(y, e))
  {
    match e
    case OwnerChanges(_, _) => OwnerChangesKeeps(y, e);
    case DaemonAnswers(_) => DaemonAnswersKeeps(y, e);
    case SignalArrives(_) => SignalArrivesKeeps(y, e);
    case ReplyArrives(token, _, _) =>
      if !y.tracker.own.closed {
        if y.answers[token].reply.Names? { SnapshotArrives(y, e); } else { LookupCompletes(y, e); }
      }
    case TimesOut(_, _) => TimesOutKeeps(y, e);
    case Starts(_, _) => RefreshesKeep(y, e);
    case Submits(_, _, _, _, _, _) => RefreshesKeep(y, e);
    case Ticks(_, _) => RefreshesKeep(y, e);
    case Subscribes(_) => if !y.tracker.own.closed { SameTable(y, Step(y, e)); }
    case Stops =>
  }

  lemma {:induction false} RunKeeps(y: System, run: seq<Event>)
    requires Inv(y) && Possible(y, run) && WindowsStay(y, run)
    ensures Inv(After(y, run))
    decreases |run|
  {
    if run != [] {
      StepKeeps(y, run[0]);
      RunKeeps(Step(y, run[0]), run[1..]);
    }
  }

  /** The two tables differ at most on names with a lifecycle signal still to arrive. */
  ghost predicate Settled(y: System) {
    !y.tracker.own.closed ==> forall n :: IsVenus(n) ==> Due(y.signals, n) || Agrees(y, n)
  }

  lemma SyncedIsSettled(y: System)
    requires Inv(y) && (y.synced || (y.clean && y.tracker.own.requests == map[]))
    ensures Settled(y)
  {
    if !y.tracker.own.closed {
      forall n | IsVenus(n) ensures Due(y.signals, n) || Agrees(y, n) { assert NameOk(y, n); }
    }
  }

  /**
   * In every run that ends no refresh too early, once one refresh has ended without losing a request, the
   * tracker's table and the daemon's owners of Venus names differ at most on names with a lifecycle signal
   * still to arrive, whatever later refreshes do. With no signal on its way they are equal, and so they are
   * in particular when a refresh has just ended with every request answered.
   */
  lemma Agreement(sel: Selector, daemon: map<string, string>, now: real, run: seq<Event>)
    requires "" !in daemon.Values && Possible(Start0(sel, daemon, now), run)
    requires WindowsStay(Start0(sel, daemon, now), run)
    ensures var y := After(Start0(sel, daemon, now), run);
            (y.synced || (y.clean && y.tracker.own.requests == map[])) && !y.tracker.own.closed ==>
              && Settled(y)
              && (y.signals == [] ==>
                    y.tracker.own.services == map n | n in y.daemon && IsVenus(n) :: y.daemon[n])
  {
    var y0 := Start0(sel, daemon, now);
    assert forall n :: NameOk(y0, n);
    RunKeeps(y0, run);
    var y := After(y0, run);
    if (y.synced || (y.clean && y.tracker.own.requests == map[])) && !y.tracker.own.closed {
      SyncedIsSettled(y);
      if y.signals == [] {
        forall n | IsVenus(n) ensures n in y.tracker.own.services <==> n in y.daemon { assert Agrees(y, n); }
        forall n | n in y.tracker.own.services ensures y.tracker.own.services[n] == y.daemon[n] { assert Agrees(y, n); }
      }
    }
  }

  /**
   * Why the window must stay open: a lifecycle signal beats the older answer of an outstanding
   * lookup if and only if it arrives while the window is open.
   */
  lemma SignalBeatsStaleReply(s: State, name: string, token: nat, stale: string, owner: string, t1: real, t2: real)
    requires !s.own.closed && IsVenus(name) && stale != "" && stale != owner
    requires !s.own.refreshing ==> s.own.changed == {}
    ensures var s' := Complete(NameOwnerChanged(s, name, owner, t1), token, GetNameOwner(name), Owner(stale), {}, t2);
            OwnerAt(s'.own.services, name) == if s.own.refreshing then owner else stale
  {
    var changed := if s.own.refreshing then s.own.changed + {name} else s.own.changed;
    var s0 := s.(own := s.own.(changed := changed), clock := t1);
    SetOwnerTable(s0, name, owner, t1);
    var s1 := NameOwnerChanged(s, name, owner, t1);
    SetOwnerTable(s1.(own := s1.own.(requests := s1.own.requests - {token}), clock := t2), name, stale, t2);
  }
}
