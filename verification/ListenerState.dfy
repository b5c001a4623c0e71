// The listener's start and stop, one step for each stretch of code between two points at which
// another thread may run.
module ListenerState {
  import opened Wrappers

  /** A thread. */
  type Id = nat

  /** Where the worker is; a running loop remembers that it has been asked to quit. */
  datatype Worker = Begun | Making | Registering | AboutToRun | Running(quit: bool) | Leaving | Ended

  /** Where a call of stop is: each loop handle it holds is named by the worker that made it. */
  datatype Stage = Poll | Ask(seen: Option<Id>) | Quit(handle: Id) | Wait | Finish(normally: bool)

  datatype Call = Call(thread: Option<Id>, cleanup: bool, stage: Stage)

  datatype Return = Return(caller: Id, thread: Option<Id>, normally: bool)

  datatype Listener = Listener(
    stopRequested: bool,
    loopThread: Option<Id>,
    mainLoop: Option<Id>,
    workers: map<Id, Worker>,
    calls: map<Id, Call>,
    joins: map<Id, Id>,
    cleanups: nat,
    outcomes: seq<Return>)

  const IDLE := Listener(false, None, None, map[], map[], map[], 0, [])

  datatype Event =
    | Start(id: Id, fails: bool)
    | WorkerStep(w: Id)
    | WorkerInterrupted(w: Id)
    | StopBegins(c: Id)
    | StopStep(c: Id, late: bool)
    | RunBegins(c: Id, id: Id, fails: bool)
    | RunReturns(c: Id)
    | RunInterrupted(c: Id)

  // ---- one step ----

  function SetWorker(st: Listener, w: Id, pc: Worker): Listener { st.(workers := st.workers[w := pc]) }

  function SetStage(st: Listener, c: Id, stage: Stage): Listener
    requires c in st.calls
  {
    st.(calls := st.calls[c := st.calls[c].(stage := stage)])
  }

  /** Under the lifecycle lock: refused after stop or when there is a worker; thread creation may fail. */
  function StartLocked(st: Listener, id: Id, fails: bool): Listener {
    if st.stopRequested || st.loopThread.Some? || fails then st
    else st.(loopThread := Some(id), workers := st.workers[id := Begun])
  }

  function StepWorker(st: Listener, w: Id): Listener
    requires w in st.workers
  {
    match st.workers[w]
    case Begun => SetWorker(st, w, if st.stopRequested then Leaving else Making)
    case Making => SetWorker(st, w, Registering)
    case Registering =>
      SetWorker(st.(mainLoop := Some(w)), w, if st.stopRequested then Leaving else AboutToRun)
    case AboutToRun => SetWorker(st, w, Running(false))
    case Running(_) => SetWorker(st, w, Leaving)
    case Leaving => SetWorker(st.(mainLoop := None), w, Ended)
    case Ended => st
  }

  predicate IsRunning(st: Listener, handle: Id) {
    handle in st.workers && st.workers[handle] == Running(false)
  }

  /** GLib forgets a quit that comes before the loop runs. */
  function QuitLoop(st: Listener, handle: Id): Listener {
    if handle in st.workers && st.workers[handle].Running? then SetWorker(st, handle, Running(true)) else st
  }

  function RequestStop(st: Listener, c: Id): Listener {
    st.(stopRequested := true, calls := st.calls[c := Call(st.loopThread, !st.stopRequested, Poll)])
  }

  predicate HasEnded(st: Listener, w: Id) { w in st.workers && st.workers[w] == Ended }

  function StepStop(st: Listener, c: Id, late: bool): Listener
    requires c in st.calls
  {
    var call := st.calls[c];
    match call.stage
    case Poll => SetStage(st, c, Ask(st.mainLoop))
    case Ask(handle) =>
      SetStage(st, c, if handle.Some? && IsRunning(st, handle.value) then Quit(handle.value) else Wait)
    case Quit(handle) => SetStage(QuitLoop(st, handle), c, Wait)
    case Wait =>
      if call.thread.None? || call.thread == Some(c) || HasEnded(st, call.thread.value)
        then SetStage(st, c, Finish(true))
      else SetStage(st, c, if late then Finish(false) else Poll)
    case Finish(normally) =>
      st.(calls := st.calls - {c}, cleanups := st.cleanups + (if call.cleanup then 1 else 0),
          outcomes := st.outcomes + [Return(c, call.thread, normally)])
  }

  function BeginRun(st: Listener, c: Id, id: Id, fails: bool): Listener {
    var started := if st.loopThread.None? then StartLocked(st, id, fails) else st;
    if started.loopThread.None? || started.loopThread == Some(c) then started
    else started.(joins := started.joins[c := started.loopThread.value])
  }

  /** A thread is outside this listener's code, or is the worker in a callback of its running loop. */
  predicate IsFree(st: Listener, c: Id) {
    c !in st.calls && c !in st.joins && (c in st.workers ==> st.workers[c].Running?)
  }

  predicate Enabled(st: Listener, e: Event) {
    match e
    case Start(id, _) => id !in st.workers && id !in st.calls && id !in st.joins
    case WorkerStep(w) =>
      && w in st.workers && st.workers[w] != Ended && (st.workers[w].Running? ==> st.workers[w].quit)
      && w !in st.calls && w !in st.joins
    case WorkerInterrupted(w) => w in st.workers && st.workers[w].Running? && w !in st.calls && w !in st.joins
    case StopBegins(c) => IsFree(st, c)
    case StopStep(c, _) => c in st.calls
    case RunBegins(c, id, _) => IsFree(st, c) && id != c && id !in st.workers && id !in st.calls && id !in st.joins
    case RunReturns(c) => c in st.joins && HasEnded(st, st.joins[c])
    case RunInterrupted(c) => c in st.joins
  }

  function Step(st: Listener, e: Event): Listener
    requires Enabled(st, e)
  {
    match e
    case Start(id, fails) => StartLocked(st, id, fails)
    case WorkerStep(w) => StepWorker(st, w)
    case WorkerInterrupted(w) => SetWorker(st, w, Leaving)
    case StopBegins(c) => RequestStop(st, c)
    case StopStep(c, late) => StepStop(st, c, late)
    case RunBegins(c, id, fails) => BeginRun(st, c, id, fails)
    case RunReturns(c) => st.(joins := st.joins - {c})
    case RunInterrupted(c) => RequestStop(st.(joins := st.joins - {c}), c)
  }

  predicate Possible(st: Listener, run: seq<Event>)
    decreases |run|
  {
    run == [] || (Enabled(st, run[0]) && Possible(Step(st, run[0]), run[1..]))
  }

  function After(st: Listener, run: seq<Event>): Listener
    requires Possible(st, run)
    decreases |run|
  {
    if run == [] then st else After(Step(st, run[0]), run[1..])
  }

  // ---- starting, on the listener's own fields ----

  class DbusListener {
    var stopRequested: bool
    var loopThread: Option<Id>
    var mainLoop: Option<Id>

    constructor ()
      ensures Matches(IDLE)
    {
      stopRequested, loopThread, mainLoop := false, None, None;
    }

    /** The fields are those of this state of the whole system. */
    ghost predicate Matches(st: Listener)
      reads this
    {
      st.stopRequested == stopRequested && st.loopThread == loopThread && st.mainLoop == mainLoop
    }

    /** `fails` says that the new thread could not be started; the handle is then taken back. */
    method Start(id: Id, fails: bool, ghost st: Listener) returns (started: bool)
      requires Matches(st)
      modifies this`loopThread
      ensures Matches(StartLocked(st, id, fails))
      ensures started <==> StartLocked(st, id, fails) != st
    {
      if stopRequested || loopThread.Some? {
        return false;
      }
      loopThread := Some(id);
      if fails {
        loopThread := None;
      }
      return !fails;
    }
  }
}
