// What starting, stopping and waiting come to: when a worker is made, how a stop reaches it and when
// it gives up, and that a stop in time keeps the loop from ever running.
module ListenerRules {
  import opened Wrappers
  import opened ListenerState
  import opened ListenerRuns

  ghost predicate StopAsked(run: seq<Event>) {
    exists i :: 0 <= i < |run| && (run[i].StopBegins? || run[i].RunInterrupted?)
  }

  /** A stop is requested for good by the first call of stop or interrupted wait, and by nothing else. */
  lemma {:induction false} StopIsAsked(st: Listener, run: seq<Event>)
    requires Possible(st, run)
    ensures After(st, run).stopRequested <==> st.stopRequested || StopAsked(run)
    decreases |run|
  {
    if run != [] {
      var e, rest := run[0], run[1..];
      StopIsAsked(Step(st, e), rest);
      OneStepAsks(st, e);
      if StopAsked(rest) {
        var i :| 0 <= i < |rest| && (rest[i].StopBegins? || rest[i].RunInterrupted?);
        assert run[i + 1] == rest[i];
      }
      if StopAsked(run) && !e.StopBegins? && !e.RunInterrupted? {
        var i :| 0 <= i < |run| && (run[i].StopBegins? || run[i].RunInterrupted?);
        assert rest[i - 1] == run[i];
      }
    }
  }

  lemma OneStepAsks(st: Listener, e: Event)
    requires Enabled(st, e)
    ensures Step(st, e).stopRequested <==> st.stopRequested || e.StopBegins? || e.RunInterrupted?
  {
    if e.StopStep? && st.calls[e.c].stage.Quit? {
      assert QuitLoop(st, st.calls[e.c].stage.handle).stopRequested == st.stopRequested;
    }
  }

  /** The one worker, or none, after somebody tried to start it. */
  ghost predicate StartedBy(st: Listener, after: Listener, run: seq<Event>, id: Id, fails: bool) {
    if st.workers == map[] && !StopAsked(run) && !fails
    then after.workers == map[id := Begun] && after.loopThread == Some(id)
    else after.workers == st.workers && after.loopThread == st.loopThread
  }

  lemma NoWorkerNoThread(st: Listener)
    requires OneWorker(st)
    ensures st.workers == map[] <==> st.loopThread.None?
  {
    assert st.loopThread.Some? ==> st.loopThread.value in st.workers;
    assert st.loopThread.None? ==> forall w :: w !in st.workers;
  }

  /** A start makes the worker exactly when there is none yet, no stop was asked for and the thread can be made. */
  lemma StartsOnce(run: seq<Event>, id: Id, fails: bool)
    requires Possible(IDLE, run) && Enabled(After(IDLE, run), Start(id, fails))
    ensures StartedBy(After(IDLE, run), Step(After(IDLE, run), Start(id, fails)), run, id, fails)
    ensures Step(After(IDLE, run), Start(id, fails)).joins == After(IDLE, run).joins
  {
    IdleIsFine();
    RunKeeps(IDLE, run);
    StopIsAsked(IDLE, run);
    NoWorkerNoThread(After(IDLE, run));
  }

  /** A run starts the worker if it can, and waits for whatever worker there is unless it is that itself. */
  lemma RunStartsOrWaits(run: seq<Event>, c: Id, id: Id, fails: bool)
    requires Possible(IDLE, run) && Enabled(After(IDLE, run), RunBegins(c, id, fails))
    ensures var st, after := After(IDLE, run), Step(After(IDLE, run), RunBegins(c, id, fails));
            && StartedBy(st, after, run, id, fails)
            && after.joins == if after.loopThread.Some? && after.loopThread.value != c
                              then st.joins[c := after.loopThread.value] else st.joins
  {
    IdleIsFine();
    RunKeeps(IDLE, run);
    StopIsAsked(IDLE, run);
    NoWorkerNoThread(After(IDLE, run));
  }

  /** Left alone and not stopped, a new worker makes its loop, registers it and runs it. */
  lemma WorkerReachesLoop(st: Listener, w: Id)
    requires w in st.workers && st.workers[w] == Begun && !st.stopRequested
    requires w !in st.calls && w !in st.joins
    ensures var e := WorkerStep(w);
            && Possible(st, [e, e, e, e])
            && After(st, [e, e, e, e]) == st.(workers := st.workers[w := Running(false)], mainLoop := Some(w))
  {
    var e := WorkerStep(w);
    var s1 := Step(st, e);
    var s2 := Step(s1, e);
    var s3 := Step(s2, e);
    var s4 := Step(s3, e);
    assert [e, e, e, e][1..] == [e, e, e] && [e, e, e][1..] == [e, e] && [e, e][1..] == [e] && [e][1..] == [];
    assert Possible(s4, []) && After(s4, []) == s4;
    assert Possible(s3, [e]) && After(s3, [e]) == s4;
    assert Possible(s2, [e, e]) && After(s2, [e, e]) == s4;
    assert Possible(s1, [e, e, e]) && After(s1, [e, e, e]) == s4;
    assert s4.workers == st.workers[w := Running(false)];
  }

  /**
   * A worker that has not registered its loop when a stop is requested never runs it, nor makes one if it has just
   * begun.
   */
  lemma {:induction false} StoppedInTime(st: Listener, run: seq<Event>, w: Id)
    requires Possible(st, run) && st.stopRequested && w in st.workers
    requires st.workers[w] in {Begun, Making, Registering, Leaving, Ended}
    ensures w in After(st, run).workers
    ensures After(st, run).workers[w] in {Begun, Making, Registering, Leaving, Ended}
    ensures st.workers[w] == Begun ==> After(st, run).workers[w] in {Begun, Leaving, Ended}
    ensures st.workers[w] in {Leaving, Ended} ==> After(st, run).workers[w] in {Leaving, Ended}
    decreases |run|
  {
    if run != [] {
      StoppedStep(st, run[0], w);
      OneStepAsks(st, run[0]);
      StoppedInTime(Step(st, run[0]), run[1..], w);
    }
  }

  lemma StoppedStep(st: Listener, e: Event, w: Id)
    requires Enabled(st, e) && st.stopRequested && w in st.workers
    requires st.workers[w] in {Begun, Making, Registering, Leaving, Ended}
    ensures w in Step(st, e).workers
    ensures Step(st, e).workers[w] in {Begun, Making, Registering, Leaving, Ended}
    ensures st.workers[w] == Begun ==> Step(st, e).workers[w] in {Begun, Leaving}
    ensures st.workers[w] in {Leaving, Ended} ==> Step(st, e).workers[w] in {Leaving, Ended}
  {
    if e.StopStep? && st.calls[e.c].stage.Quit? {
      assert QuitLoop(st, st.calls[e.c].stage.handle).workers[w] == st.workers[w];
    }
  }

  /** Uninterrupted, one round of a stop makes a running loop quit, and otherwise changes no worker. */
  lemma RoundQuits(st: Listener, c: Id, w: Id, late: bool)
    requires Inv(st) && c in st.calls && st.calls[c].stage == Poll && w in st.workers
    ensures var e := StopStep(c, late); var round := if st.workers[w] == Running(false) then [e, e, e] else [e, e];
            && Possible(st, round)
            && After(st, round).workers == (if st.workers[w] == Running(false) then st.workers[w := Running(true)]
                                            else st.workers)
            && After(st, round).calls == st.calls[c := st.calls[c].(stage := Wait)]
  {
    var e := StopStep(c, late);
    var s1 := Step(st, e);
    var s2 := Step(s1, e);
    assert [e, e, e][1..] == [e, e] && [e, e][1..] == [e] && [e][1..] == [];
    assert s1.calls[c].stage == Ask(st.mainLoop);
    if st.workers[w] == Running(false) {
      var s3 := Step(s2, e);
      assert s2.calls[c].stage == Quit(w);
      assert Possible(s3, []) && After(s3, []) == s3;
      assert Possible(s2, [e]) && After(s2, [e]) == s3;
      assert Possible(s1, [e, e]) && After(s1, [e, e]) == s3;
      assert s3.calls == st.calls[c := st.calls[c].(stage := Wait)];
    } else {
      assert Possible(s2, []) && After(s2, []) == s2;
      assert Possible(s1, [e]) && After(s1, [e]) == s2;
      assert s2.calls == st.calls[c := st.calls[c].(stage := Wait)];
    }
  }

  /**
   * What a stop does after it has waited: it returns once every worker has ended or is the caller, and gives up
   * only past its deadline; before that it starts another round.
   */
  lemma WaitEnds(st: Listener, c: Id, late: bool)
    requires Inv(st) && c in st.calls && st.calls[c].stage == Wait
    ensures var stage := Step(st, StopStep(c, late)).calls[c].stage;
            if forall w :: w in st.workers ==> w == c || st.workers[w] == Ended then stage == Finish(true)
            else stage == if late then Finish(false) else Poll
  {
    assert IsStop(st, c, st.calls[c]);
    NoWorkerNoThread(st);
  }

  /** And how it returns: with its outcome, and the subscriptions removed by the first stop alone. */
  lemma StopReturns(st: Listener, c: Id, late: bool, normally: bool)
    requires c in st.calls && st.calls[c].stage == Finish(normally)
    ensures var after := Step(st, StopStep(c, late));
            && after.calls == st.calls - {c} && after.workers == st.workers
            && after.outcomes == st.outcomes + [Return(c, st.calls[c].thread, normally)]
            && after.cleanups == st.cleanups + (if st.calls[c].cleanup then 1 else 0)
  {
  }

  /** Only the first request is to clean up; every call begins with a round. */
  lemma StopBegun(st: Listener, c: Id)
    requires Enabled(st, StopBegins(c))
    ensures var after := Step(st, StopBegins(c));
            after.calls == st.calls[c := Call(st.loopThread, !st.stopRequested, Poll)] && after.workers == st.workers
  {
  }

  lemma WaitsStay(st: Listener, e: Event, c: Id)
    requires Enabled(st, e)
    ensures c in st.joins ==> c in Step(st, e).joins || e == RunReturns(c) || e == RunInterrupted(c)
  {
    if e.StopStep? && st.calls[e.c].stage.Quit? {
      assert QuitLoop(st, st.calls[e.c].stage.handle).joins == st.joins;
    }
  }

  /** A wait ends only with the worker it waits for, or by an interrupt, which begins a stop. */
  lemma WaitingEnds(st: Listener, e: Event, c: Id)
    requires Enabled(st, e) && c in st.joins && c !in Step(st, e).joins
    ensures (st.joins[c] in st.workers && st.workers[st.joins[c]] == Ended)
            || (c in Step(st, e).calls && Step(st, e).calls[c].stage == Poll && Step(st, e).stopRequested)
  {
    WaitsStay(st, e, c);
  }
}
