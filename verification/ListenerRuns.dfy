// What holds of the listener however its starts, runs, stops and worker interleave.
module ListenerRuns {
  import opened Wrappers
  import opened ListenerState

  /** The only worker there can be is the one the listener keeps. */
  ghost predicate OneWorker(st: Listener) {
    forall w :: w in st.workers <==> st.loopThread == Some(w)
  }

  /** The registered loop is the worker's, from registering until it leaves. */
  ghost predicate LoopIsWorkers(st: Listener) {
    && (st.mainLoop.Some? ==>
          st.mainLoop.value in st.workers && (st.workers[st.mainLoop.value].AboutToRun?
            || st.workers[st.mainLoop.value].Running? || st.workers[st.mainLoop.value].Leaving?))
    && forall w :: w in st.workers && (st.workers[w].AboutToRun? || st.workers[w].Running?) ==> st.mainLoop == Some(w)
  }

  /** What a normal return says: no worker ever was, or it has ended, unless the worker itself asked. */
  predicate WorkerGone(st: Listener, caller: Id, thread: Option<Id>) {
    thread == st.loopThread && (thread.None? || thread == Some(caller) || HasEnded(st, thread.value))
  }

  predicate IsStop(st: Listener, c: Id, call: Call) {
    && st.stopRequested && call.thread == st.loopThread
    && (call.stage == Finish(true) ==> WorkerGone(st, c, call.thread))
  }

  ghost predicate CallsAreStops(st: Listener) {
    forall c :: c in st.calls ==> IsStop(st, c, st.calls[c])
  }

  predicate IsTrue(st: Listener, r: Return) {
    st.stopRequested && (r.normally ==> WorkerGone(st, r.caller, r.thread))
  }

  ghost predicate ReturnsAreTrue(st: Listener) {
    forall i :: 0 <= i < |st.outcomes| ==> IsTrue(st, st.outcomes[i])
  }

  predicate WillClean(st: Listener, c: Id) { c in st.calls && st.calls[c].cleanup }

  /** Cleaning up is still to be done by one call, or has been done once. */
  ghost predicate CleansOnce(st: Listener) {
    && (!st.stopRequested ==> st.cleanups == 0)
    && (st.stopRequested ==> st.cleanups == 1 || (st.cleanups == 0 && exists c :: WillClean(st, c)))
    && (st.cleanups == 1 ==> forall c :: !WillClean(st, c))
    && (forall c, d :: WillClean(st, c) && WillClean(st, d) ==> c == d)
  }

  ghost predicate JoinsWorker(st: Listener) {
    forall c :: c in st.joins ==> st.loopThread == Some(st.joins[c]) && c != st.joins[c] && c !in st.calls
  }

  ghost predicate Inv(st: Listener) {
    OneWorker(st) && LoopIsWorkers(st) && CallsAreStops(st) && ReturnsAreTrue(st) && CleansOnce(st) && JoinsWorker(st)
  }

  lemma IdleIsFine()
    ensures Inv(IDLE)
  {
  }

  // ---- one lemma for each way the threads can change ----

  lemma StartKeepsThreads(st: Listener, id: Id, fails: bool)
    requires OneWorker(st) && LoopIsWorkers(st) && id !in st.workers
    ensures OneWorker(StartLocked(st, id, fails)) && LoopIsWorkers(StartLocked(st, id, fails))
  {
  }

  lemma WorkerKeepsThreads(st: Listener, w: Id)
    requires OneWorker(st) && LoopIsWorkers(st) && w in st.workers
    ensures OneWorker(StepWorker(st, w)) && LoopIsWorkers(StepWorker(st, w))
  {
  }

  lemma LeavingKeepsThreads(st: Listener, w: Id)
    requires OneWorker(st) && LoopIsWorkers(st) && w in st.workers && st.workers[w].Running?
    ensures OneWorker(SetWorker(st, w, Leaving)) && LoopIsWorkers(SetWorker(st, w, Leaving))
  {
  }

  lemma QuitKeepsThreads(st: Listener, handle: Id)
    requires OneWorker(st) && LoopIsWorkers(st)
    ensures OneWorker(QuitLoop(st, handle)) && LoopIsWorkers(QuitLoop(st, handle))
  {
  }

  lemma SameThreads(st: Listener, after: Listener)
    requires OneWorker(st) && LoopIsWorkers(st)
    requires after.workers == st.workers && after.loopThread == st.loopThread && after.mainLoop == st.mainLoop
    ensures OneWorker(after) && LoopIsWorkers(after)
  {
  }

  lemma StopKeepsThreads(st: Listener, c: Id, late: bool)
    requires OneWorker(st) && LoopIsWorkers(st) && c in st.calls
    ensures OneWorker(StepStop(st, c, late)) && LoopIsWorkers(StepStop(st, c, late))
  {
    if st.calls[c].stage.Quit? {
      QuitKeepsThreads(st, st.calls[c].stage.handle);
      SameThreads(QuitLoop(st, st.calls[c].stage.handle), StepStop(st, c, late));
    } else {
      SameThreads(st, StepStop(st, c, late));
    }
  }

  lemma RunKeepsThreads(st: Listener, c: Id, id: Id, fails: bool)
    requires OneWorker(st) && LoopIsWorkers(st) && id !in st.workers
    ensures OneWorker(BeginRun(st, c, id, fails)) && LoopIsWorkers(BeginRun(st, c, id, fails))
  {
    StartKeepsThreads(st, id, fails);
    SameThreads(if st.loopThread.None? then StartLocked(st, id, fails) else st, BeginRun(st, c, id, fails));
  }

  lemma StepKeepsThreads(st: Listener, e: Event)
    requires OneWorker(st) && LoopIsWorkers(st) && Enabled(st, e)
    ensures OneWorker(Step(st, e)) && LoopIsWorkers(Step(st, e))
  {
    match e
    case Start(id, fails) => StartKeepsThreads(st, id, fails);
    case WorkerStep(w) => WorkerKeepsThreads(st, w);
    case WorkerInterrupted(w) => LeavingKeepsThreads(st, w);
    case StopStep(c, late) => StopKeepsThreads(st, c, late);
    case RunBegins(c, id, fails) => RunKeepsThreads(st, c, id, fails);
    case _ => SameThreads(st, Step(st, e));
  }

  // ---- who is calling and who is waiting ----

  /** Until a thread is made there is no worker, and then it stays the one. */
  lemma ThreadStays(st: Listener, e: Event)
    requires Enabled(st, e)
    ensures st.loopThread.Some? || st.stopRequested ==> Step(st, e).loopThread == st.loopThread
    ensures st.stopRequested ==> Step(st, e).stopRequested
  {
  }

  lemma WorkersStay(st: Listener, e: Event)
    requires Enabled(st, e) && st.stopRequested
    ensures Step(st, e).workers.Keys == st.workers.Keys
  {
    if e.StopStep? && st.calls[e.c].stage.Quit? {
      var handle := st.calls[e.c].stage.handle;
      assert QuitLoop(st, handle).workers.Keys == st.workers.Keys;
    }
  }

  lemma EndedStays(st: Listener, e: Event, w: Id)
    requires Enabled(st, e) && HasEnded(st, w)
    ensures HasEnded(Step(st, e), w)
  {
    if e.StopStep? && st.calls[e.c].stage.Quit? {
      assert HasEnded(QuitLoop(st, st.calls[e.c].stage.handle), w);
    }
  }

  lemma SameJoins(st: Listener, after: Listener)
    requires JoinsWorker(st) && after.joins == st.joins && after.calls.Keys <= st.calls.Keys
    requires st.loopThread.Some? ==> after.loopThread == st.loopThread
    ensures JoinsWorker(after)
  {
  }

  lemma StepKeepsJoins(st: Listener, e: Event)
    requires JoinsWorker(st) && Enabled(st, e)
    ensures JoinsWorker(Step(st, e))
  {
    ThreadStays(st, e);
    match e
    case StopBegins(c) =>
    case RunBegins(c, id, fails) =>
    case RunReturns(c) =>
    case RunInterrupted(c) =>
    case StopStep(c, late) => StopKeepsKeys(st, c, late); SameJoins(st, Step(st, e));
    case _ => SameJoins(st, Step(st, e));
  }

  lemma StopKeepsKeys(st: Listener, c: Id, late: bool)
    requires c in st.calls
    ensures StepStop(st, c, late).calls.Keys <= st.calls.Keys && StepStop(st, c, late).joins == st.joins
  {
  }

  /** What is gone stays gone. */
  lemma GoneStays(st: Listener, e: Event, caller: Id, thread: Option<Id>)
    requires Inv(st) && Enabled(st, e) && st.stopRequested && WorkerGone(st, caller, thread)
    ensures Step(st, e).stopRequested && WorkerGone(Step(st, e), caller, thread)
  {
    ThreadStays(st, e);
    if thread.Some? && thread != Some(caller) {
      EndedStays(st, e, thread.value);
    }
  }

  lemma StepKeepsCalls(st: Listener, e: Event)
    requires Inv(st) && Enabled(st, e)
    ensures CallsAreStops(Step(st, e))
  {
    hide OneWorker, LoopIsWorkers, CleansOnce, ReturnsAreTrue, JoinsWorker, IsStop;
    var after := Step(st, e);
    forall c | c in after.calls ensures IsStop(after, c, after.calls[c]) {
      if c in st.calls && after.calls[c] == st.calls[c] {
        StopStays(st, e, c, st.calls[c]);
      } else {
        MovedStaysStop(st, e, c);
      }
    }
  }

  /** A call of stop that has just begun or moved to its next stage. */
  lemma MovedStaysStop(st: Listener, e: Event, c: Id)
    requires Inv(st) && Enabled(st, e) && c in Step(st, e).calls
    requires !(c in st.calls && Step(st, e).calls[c] == st.calls[c])
    ensures IsStop(Step(st, e), c, Step(st, e).calls[c])
  {
    hide CallsAreStops, OneWorker, LoopIsWorkers, CleansOnce, ReturnsAreTrue, JoinsWorker, StepStop;
    if e.StopStep? {
      OnlyThisCallMoves(st, e.c, e.late, c);
      NextStageStaysStop(st, c, e.late);
    }
  }

  lemma OnlyThisCallMoves(st: Listener, c: Id, late: bool, d: Id)
    requires c in st.calls
    ensures var calls := StepStop(st, c, late).calls;
            d != c ==> (d in calls <==> d in st.calls) && (d in calls ==> calls[d] == st.calls[d])
  {
    hide HasEnded, IsRunning;
    match st.calls[c].stage
    case Quit(handle) => QuittingStopsNone(st, handle); hide QuitLoop;
    case _ =>
  }

  lemma QuittingStopsNone(st: Listener, handle: Id)
    ensures QuitLoop(st, handle).calls == st.calls
  {
  }

  lemma NextStageStaysStop(st: Listener, c: Id, late: bool)
    requires CallsAreStops(st) && c in st.calls && c in StepStop(st, c, late).calls
    ensures IsStop(StepStop(st, c, late), c, StepStop(st, c, late).calls[c])
  {
    assert IsStop(st, c, st.calls[c]);
  }

  lemma StopStays(st: Listener, e: Event, c: Id, call: Call)
    requires Inv(st) && Enabled(st, e) && IsStop(st, c, call)
    ensures IsStop(Step(st, e), c, call)
  {
    ThreadStays(st, e);
    if call.stage == Finish(true) {
      GoneStays(st, e, c, call.thread);
    }
  }

  lemma StepKeepsReturns(st: Listener, e: Event)
    requires Inv(st) && Enabled(st, e)
    ensures ReturnsAreTrue(Step(st, e))
  {
    hide OneWorker, LoopIsWorkers, CleansOnce, JoinsWorker;
    var after := Step(st, e);
    forall i | 0 <= i < |after.outcomes| ensures IsTrue(after, after.outcomes[i]) {
      var r := after.outcomes[i];
      if i < |st.outcomes| {
        assert r == st.outcomes[i] && IsTrue(st, r);
        if r.normally { GoneStays(st, e, r.caller, r.thread); }
      } else {
        assert e.StopStep? && e.c in st.calls && r.caller == e.c && r.thread == st.calls[e.c].thread;
        if r.normally { GoneStays(st, e, e.c, st.calls[e.c].thread); }
      }
    }
  }

  lemma StepKeepsCleaning(st: Listener, e: Event)
    requires Inv(st) && Enabled(st, e)
    ensures CleansOnce(Step(st, e))
  {
    match e
    case StopBegins(c) => BeginKeepsCleaning(st, c);
    case RunInterrupted(c) =>
      var unjoined := st.(joins := st.joins - {c});
      SameCleaning(st, unjoined);
      BeginKeepsCleaning(unjoined, c);
    case StopStep(c, late) =>
      if st.calls[c].stage.Finish? {
        FinishKeepsCleaning(st, c, late);
      } else {
        OtherStageKeepsCleaning(st, c, late);
      }
    case _ => SameCleaning(st, Step(st, e));
  }

  lemma SameCleaning(st: Listener, after: Listener)
    requires CleansOnce(st) && after.cleanups == st.cleanups && after.stopRequested == st.stopRequested
    requires forall d :: WillClean(after, d) <==> WillClean(st, d)
    ensures CleansOnce(after)
  {
    if st.stopRequested && st.cleanups == 0 {
      var d :| WillClean(st, d);
      assert WillClean(after, d);
    }
  }

  lemma OtherStageKeepsCleaning(st: Listener, c: Id, late: bool)
    requires CleansOnce(st) && c in st.calls && !st.calls[c].stage.Finish?
    ensures CleansOnce(StepStop(st, c, late))
  {
    var after := StepStop(st, c, late);
    forall d ensures WillClean(after, d) <==> WillClean(st, d) {
      assert d in after.calls <==> d in st.calls;
    }
    SameCleaning(st, after);
  }

  lemma FinishKeepsCleaning(st: Listener, c: Id, late: bool)
    requires CleansOnce(st) && c in st.calls && st.calls[c].stage.Finish? && st.stopRequested
    ensures CleansOnce(StepStop(st, c, late))
  {
    var after := StepStop(st, c, late);
    forall d ensures WillClean(after, d) <==> WillClean(st, d) && d != c {}
    assert WillClean(st, c) <==> st.calls[c].cleanup;
    if after.cleanups == 0 {
      var d :| WillClean(st, d);
      assert WillClean(after, d);
    }
  }

  lemma BeginKeepsCleaning(st: Listener, c: Id)
    requires CleansOnce(st) && c !in st.calls && (st.calls != map[] ==> st.stopRequested)
    ensures CleansOnce(RequestStop(st, c))
  {
    var after := RequestStop(st, c);
    assert forall d :: WillClean(after, d) <==> WillClean(st, d) || (d == c && !st.stopRequested);
    if !st.stopRequested {
      assert WillClean(after, c);
    } else if st.cleanups == 0 {
      var d :| WillClean(st, d);
      assert WillClean(after, d);
    }
  }

  lemma StepKeeps(st: Listener, e: Event)
    requires Inv(st) && Enabled(st, e)
    ensures Inv(Step(st, e))
  {
    StepKeepsThreads(st, e);
    StepKeepsJoins(st, e);
    StepKeepsCalls(st, e);
    StepKeepsReturns(st, e);
    StepKeepsCleaning(st, e);
  }

  lemma {:induction false} RunKeeps(st: Listener, run: seq<Event>)
    requires Inv(st) && Possible(st, run)
    ensures Inv(After(st, run))
    decreases |run|
  {
    if run != [] {
      StepKeeps(st, run[0]);
      RunKeeps(Step(st, run[0]), run[1..]);
    }
  }

  // ---- the guarantees, over every run from the idle listener ----

  /** There is never a second worker, and once stop is requested none appears. */
  lemma NoneAfterStop(run: seq<Event>, more: seq<Event>)
    requires Possible(IDLE, run) && Possible(After(IDLE, run), more)
    ensures var st := After(IDLE, run);
            && (forall v, w :: v in st.workers && w in st.workers ==> v == w)
            && (st.stopRequested ==> After(st, more).workers.Keys == st.workers.Keys && After(st, more).stopRequested)
  {
    IdleIsFine();
    RunKeeps(IDLE, run);
    if After(IDLE, run).stopRequested {
      StoppedStays(After(IDLE, run), more);
    }
  }

  lemma {:induction false} StoppedStays(st: Listener, run: seq<Event>)
    requires Inv(st) && Possible(st, run) && st.stopRequested
    ensures After(st, run).stopRequested && After(st, run).workers.Keys == st.workers.Keys
    decreases |run|
  {
    if run != [] {
      StepKeeps(st, run[0]);
      ThreadStays(st, run[0]);
      WorkersStay(st, run[0]);
      StoppedStays(Step(st, run[0]), run[1..]);
    }
  }

  /**
   * A stop that returns normally off the worker means the worker has ended, for good, or never was;
   * and the subscriptions are cleaned up at most once, and once when no stop is under way any more.
   */
  lemma StopIsTruthful(run: seq<Event>)
    requires Possible(IDLE, run)
    ensures var st := After(IDLE, run);
            && (forall i :: 0 <= i < |st.outcomes| && st.outcomes[i].normally ==>
                  forall w :: w in st.workers && w != st.outcomes[i].caller ==> st.workers[w] == Ended)
            && st.cleanups <= 1
            && (st.stopRequested && st.calls == map[] ==> st.cleanups == 1)
            && (!st.stopRequested ==> st.cleanups == 0)
  {
    IdleIsFine();
    RunKeeps(IDLE, run);
    var st := After(IDLE, run);
    forall i, w | 0 <= i < |st.outcomes| && st.outcomes[i].normally && w in st.workers && w != st.outcomes[i].caller
      ensures st.workers[w] == Ended
    {
      assert IsTrue(st, st.outcomes[i]);
    }
    if st.stopRequested && st.calls == map[] {
      assert forall c :: !WillClean(st, c);
    }
  }

  // ---- stopping makes progress ----

  function StepsLeft(pc: Worker): nat {
    match pc
    case Begun => 7
    case Making => 6
    case Registering => 5
    case AboutToRun => 4
    case Running(quit) => if quit then 2 else 3
    case Leaving => 1
    case Ended => 0
  }

  /** How far the worker still is from its end. */
  function Distance(st: Listener): nat {
    if st.loopThread.Some? && st.loopThread.value in st.workers then StepsLeft(st.workers[st.loopThread.value]) else 0
  }

  /** After stop is requested nothing moves the worker away from its end, and its own steps move it nearer. */
  lemma NothingUndoesProgress(st: Listener, e: Event)
    requires Inv(st) && Enabled(st, e) && st.stopRequested
    ensures Distance(Step(st, e)) <= Distance(st)
    ensures e.WorkerStep? || e.WorkerInterrupted? ==> Distance(Step(st, e)) < Distance(st)
  {
  }

  /** The worker can only be held up by a loop nobody has quit, or by its own callback. */
  lemma OnlyTheLoopWaits(st: Listener, w: Id)
    requires Inv(st) && w in st.workers && st.workers[w] != Ended && w !in st.calls && w !in st.joins
    ensures Enabled(st, WorkerStep(w)) <==> st.workers[w] != Running(false)
  {
  }

  /** A quit before the loop runs is lost: the worker goes on to run. */
  lemma EarlyQuitIsLost(st: Listener, w: Id)
    requires w in st.workers && st.workers[w] == AboutToRun
    ensures QuitLoop(st, w) == st && StepWorker(QuitLoop(st, w), w).workers[w] == Running(false)
  {
  }

  /** The call is on its way to asking this loop to quit, or the loop has moved on. */
  predicate Asking(st: Listener, c: Id, w: Id, bound: nat) {
    Distance(st) < bound
    || (c in st.calls && w in st.workers && st.workers[w] == Running(false)
        && (st.calls[c].stage == Poll || st.calls[c].stage == Ask(Some(w)) || st.calls[c].stage == Quit(w)))
  }

  lemma AskingStep(st: Listener, e: Event, c: Id, w: Id, bound: nat)
    requires Inv(st) && Enabled(st, e) && st.stopRequested && Distance(st) <= bound && Asking(st, c, w, bound)
    ensures Asking(Step(st, e), c, w, bound) && Distance(Step(st, e)) <= bound
  {
    NothingUndoesProgress(st, e);
  }

  /**
   * One polling round that starts while the loop runs brings the worker nearer its end by the time it
   * waits, whatever else happens in between.
   */
  lemma {:induction false} RoundMakesProgress(st: Listener, run: seq<Event>, c: Id, w: Id, bound: nat)
    requires Inv(st) && Possible(st, run) && st.stopRequested && Distance(st) <= bound && Asking(st, c, w, bound)
    requires var end := After(st, run); c in end.calls && (end.calls[c].stage == Wait || end.calls[c].stage.Finish?)
    ensures Distance(After(st, run)) < bound
    decreases |run|
  {
    if run != [] {
      AskingStep(st, run[0], c, w, bound);
      StepKeeps(st, run[0]);
      assert Step(st, run[0]).stopRequested;
      RoundMakesProgress(Step(st, run[0]), run[1..], c, w, bound);
    }
  }
}
