// Walking the graph of callable workflows: depth first, with the files of the current chain and the
// files visited so far kept apart.
module WorkflowGraph {
  import opened Wrappers

  const PREFIX := "./.github/workflows/"

  datatype Job = Job(name: string, uses: string, runsOn: bool, timeout: bool)

  /** A workflow file: its triggers, unless they are not a mapping, and its jobs in order. */
  datatype Workflow = Workflow(triggers: Option<set<string>>, jobs: seq<Job>)

  type Workflows = map<string, Workflow>

  datatype Problem = Recursive | Unknown | NotCallable | OtherTriggers | NoTimeout(job: string)

  // ---- what a file calls, and what is wrong with it by itself ----

  predicate IsLocal(job: Job) { PREFIX <= job.uses }

  /** The part after the last slash. */
  function BaseName(reference: string): string {
    if reference == "" || reference[|reference| - 1] == '/' then ""
    else BaseName(reference[..|reference| - 1]) + [reference[|reference| - 1]]
  }

  predicate Calls(w: Workflow, callee: string) {
    exists job :: job in w.jobs && IsLocal(job) && BaseName(job.uses) == callee
  }

  predicate IsCallable(w: Workflow) { w.triggers.Some? && "workflow_call" in w.triggers.value }

  predicate OnlyValidates(w: Workflow) {
    w.triggers.Some? && w.triggers.value <= {"workflow_call", "workflow_dispatch"}
  }

  predicate Unbounded(job: Job) { !IsLocal(job) && job.runsOn && !job.timeout }

  /** What may be reported about a file, whatever it calls. */
  predicate Ails(ws: Workflows, file: string, problem: Problem) {
    match problem
    case Recursive => false
    case Unknown => file !in ws
    case NotCallable => file in ws && !IsCallable(ws[file])
    case OtherTriggers => file in ws && IsCallable(ws[file]) && !OnlyValidates(ws[file])
    case NoTimeout(name) => file in ws && exists job :: job in ws[file].jobs && job.name == name && Unbounded(job)
  }

  // ---- paths ----

  ghost predicate Edge(ws: Workflows, f: string, g: string) { f in ws && Calls(ws[f], g) }

  ghost predicate IsPath(ws: Workflows, p: seq<string>) {
    p != [] && forall i :: 0 < i < |p| ==> Edge(ws, p[i - 1], p[i])
  }

  function Last(p: seq<string>): string
    requires p != []
  {
    p[|p| - 1]
  }

  /** Distinct files of a chain. */
  function Elems(s: seq<string>): set<string> { set x | x in s }

  ghost predicate Leads(ws: Workflows, p: seq<string>, f: string, g: string) {
    IsPath(ws, p) && p[0] == f && Last(p) == g
  }

  ghost predicate Reaches(ws: Workflows, f: string, g: string) { exists p :: Leads(ws, p, f, g) }

  /** The path ends at a file with this problem, or closes a cycle. */
  ghost predicate Shows(ws: Workflows, p: seq<string>, problem: Problem) {
    IsPath(ws, p) && if problem.Recursive? then Last(p) in p[..|p| - 1] else Ails(ws, Last(p), problem)
  }

  /** Some validator leads to the problem. */
  ghost predicate Faulty(ws: Workflows, validators: seq<string>, problem: Problem) {
    exists p :: Shows(ws, p, problem) && p[0] in validators
  }

  ghost predicate Reached(ws: Workflows, validators: seq<string>, f: string) {
    exists v :: v in validators && Reaches(ws, v, f)
  }

  lemma PathTail(ws: Workflows, p: seq<string>, k: nat)
    requires IsPath(ws, p) && k < |p|
    ensures IsPath(ws, p[k..]) && p[k..][0] == p[k] && Last(p[k..]) == Last(p)
  {
    forall i | 0 < i < |p| - k ensures Edge(ws, p[k..][i - 1], p[k..][i]) {
      assert Edge(ws, p[k + i - 1], p[k + i]);
    }
  }

  lemma PathGrows(ws: Workflows, p: seq<string>, g: string)
    requires IsPath(ws, p) && Edge(ws, Last(p), g)
    ensures IsPath(ws, p + [g]) && (p + [g])[0] == p[0] && Last(p + [g]) == g
  {
  }

  lemma ReachesThrough(ws: Workflows, f: string, g: string, h: string)
    requires Edge(ws, f, g) && Reaches(ws, g, h)
    ensures Reaches(ws, f, h)
  {
    var p :| Leads(ws, p, g, h);
    var q := [f] + p;
    forall i | 0 < i < |q| ensures Edge(ws, q[i - 1], q[i]) {
      assert i > 1 ==> Edge(ws, p[i - 2], p[i - 1]);
    }
    assert Leads(ws, q, f, h);
  }

  lemma ReachesItself(ws: Workflows, f: string)
    ensures Reaches(ws, f, f)
  {
    assert Leads(ws, [f], f, f);
  }

  // ---- the order in which files are finished ----

  ghost predicate Sound(ws: Workflows, f: string) {
    forall problem :: !Ails(ws, f, problem)
  }

  /** Each finished file is sound, new, and calls only files finished before it. */
  ghost predicate Topological(ws: Workflows, finished: seq<string>) {
    forall i :: 0 <= i < |finished| ==>
      && Sound(ws, finished[i]) && finished[i] !in finished[..i]
      && forall g :: Edge(ws, finished[i], g) ==> g in finished[..i]
  }

  /** A path that starts among the finished files runs down their order. */
  lemma {:induction false} PathsDescend(ws: Workflows, finished: seq<string>, p: seq<string>, i: nat)
    requires Topological(ws, finished) && IsPath(ws, p) && i < |finished| && p[0] == finished[i]
    ensures forall k :: 0 < k < |p| ==> p[k] in finished[..i]
    decreases |p|
  {
    if |p| > 1 {
      assert Edge(ws, p[0], p[1]);
      var j :| 0 <= j < i && finished[j] == p[1];
      PathTail(ws, p, 1);
      PathsDescend(ws, finished, p[1..], j);
      forall k | 0 < k < |p| ensures p[k] in finished[..i] {
        assert k > 1 ==> p[k] == p[1..][k - 1];
      }
    }
  }

  /** Nothing is wrong anywhere a finished file leads: every file there is finished, and no path returns. */
  lemma FinishedHasNoFault(ws: Workflows, finished: seq<string>, p: seq<string>, problem: Problem)
    requires Topological(ws, finished) && IsPath(ws, p) && p[0] in finished
    ensures Last(p) in finished && !Shows(ws, p, problem)
  {
    var i :| 0 <= i < |finished| && finished[i] == p[0];
    PathsDescend(ws, finished, p, i);
    assert Last(p) in finished;
    if problem.Recursive? && Last(p) in p[..|p| - 1] {
      var k :| 0 <= k < |p| - 1 && p[k] == Last(p);
      assert p[k] in finished;
      var j :| 0 <= j < |finished| && finished[j] == p[k];
      PathTail(ws, p, k);
      PathsDescend(ws, finished, p[k..], j);
    }
  }

  /** What is visited is finished, or on the chain and unfinished. */
  ghost predicate Balanced(ws: Workflows, visited: set<string>, finished: seq<string>, chain: seq<string>) {
    && Topological(ws, finished)
    && (forall f :: f in visited <==> f in finished || f in chain)
    && (forall f :: f in chain ==> f in ws && f !in finished)
  }

  lemma EnterKeeps(ws: Workflows, visited: set<string>, finished: seq<string>, chain: seq<string>, file: string)
    requires Balanced(ws, visited, finished, chain) && file in ws && file !in visited
    ensures Balanced(ws, visited + {file}, finished, chain + [file])
  {
  }

  lemma LeaveKeeps(ws: Workflows, visited: set<string>, finished: seq<string>, chain: seq<string>, file: string)
    requires Balanced(ws, visited, finished, chain + [file]) && file !in chain && Sound(ws, file)
    requires forall g :: Edge(ws, file, g) ==> g in finished
    ensures Balanced(ws, visited, finished + [file], chain)
  {
    var after := finished + [file];
    forall i | 0 <= i < |after|
      ensures Sound(ws, after[i]) && after[i] !in after[..i] && forall g :: Edge(ws, after[i], g) ==> g in after[..i]
    {
      assert after[..i] == finished[..i];
    }
  }

  lemma ChainShrinks(ws: Workflows, chain: seq<string>, file: string)
    requires file in ws && file !in chain
    ensures ws.Keys - Elems(chain + [file]) < ws.Keys - Elems(chain)
  {
    assert file in Elems(chain + [file]) && file !in Elems(chain);
    assert Elems(chain) <= Elems(chain + [file]);
  }

  predicate JobsSettled(finished: seq<string>, jobs: seq<Job>) {
    forall job :: job in jobs ==> if IsLocal(job) then BaseName(job.uses) in finished else !Unbounded(job)
  }

  lemma SettledJobsAreSound(ws: Workflows, finished: seq<string>, file: string)
    requires file in ws && IsCallable(ws[file]) && OnlyValidates(ws[file]) && JobsSettled(finished, ws[file].jobs)
    ensures Sound(ws, file) && forall g :: Edge(ws, file, g) ==> g in finished
  {
  }

  class Walk {
    const workflows: Workflows
    var visited: set<string>
    ghost var finished: seq<string>

    constructor (workflows: Workflows)
      ensures this.workflows == workflows && Valid([]) && visited == {} && finished == []
    {
      this.workflows, visited, finished := workflows, {}, [];
    }

    ghost predicate Valid(chain: seq<string>)
      reads this
    {
      Balanced(workflows, visited, finished, chain)
    }

    /** Everything finished since `before` is reached from `file`. */
    ghost predicate ReachedFrom(before: seq<string>, file: string)
      reads this
    {
      before <= finished && forall k :: |before| <= k < |finished| ==> Reaches(workflows, file, finished[k])
    }

    method Callable(file: string, chain: seq<string>) returns (problem: Option<Problem>)
      requires Valid(chain) && IsPath(workflows, chain + [file])
      modifies this
      ensures problem.None? ==> Valid(chain) && file in finished && ReachedFrom(old(finished), file)
      ensures problem.Some? ==> exists p :: Shows(workflows, p, problem.value) && p[0] == (chain + [file])[0]
      decreases workflows.Keys - Elems(chain), 1
    {
      ghost var path := chain + [file];
      if file in chain {
        assert Shows(workflows, path, Recursive);
        return Some(Recursive);
      }
      if file in visited {
        return None;
      }
      if file !in workflows {
        assert Shows(workflows, path, Unknown);
        return Some(Unknown);
      }
      var workflow := workflows[file];
      if !IsCallable(workflow) {
        assert Shows(workflows, path, NotCallable);
        return Some(NotCallable);
      }
      if !OnlyValidates(workflow) {
        assert Shows(workflows, path, OtherTriggers);
        return Some(OtherTriggers);
      }
      EnterKeeps(workflows, visited, finished, chain, file);
      visited := visited + {file};
      problem := CallJobs(file, chain);
      if problem.None? {
        SettledJobsAreSound(workflows, finished, file);
        LeaveKeeps(workflows, visited, finished, chain, file);
        ReachesItself(workflows, file);
        finished := finished + [file];
      }
    }

    /** The jobs of a file, with the file on the chain. */
    method CallJobs(file: string, chain: seq<string>) returns (problem: Option<Problem>)
      requires Valid(chain + [file]) && IsPath(workflows, chain + [file]) && file in workflows && file !in chain
      modifies this
      ensures problem.None? ==> Valid(chain + [file]) && ReachedFrom(old(finished), file)
      ensures problem.None? ==> JobsSettled(finished, workflows[file].jobs)
      ensures problem.Some? ==> exists p :: Shows(workflows, p, problem.value) && p[0] == (chain + [file])[0]
      decreases workflows.Keys - Elems(chain), 0
    {
      var jobs := workflows[file].jobs;
      ChainShrinks(workflows, chain, file);
      for k := 0 to |jobs|
        invariant Valid(chain + [file]) && ReachedFrom(old(finished), file) && JobsSettled(finished, jobs[..k])
      {
        var job := jobs[k];
        assert jobs[..k + 1] == jobs[..k] + [job];
        if IsLocal(job) {
          ghost var before := finished;
          var callee := BaseName(job.uses);
          assert Edge(workflows, file, callee);
          PathGrows(workflows, chain + [file], callee);
          problem := Callable(callee, chain + [file]);
          if problem.Some? {
            return;
          }
          ReachedThroughCall(old(finished), before, file, callee);
        } else if job.runsOn && !job.timeout {
          assert Ails(workflows, file, NoTimeout(job.name));
          assert Shows(workflows, chain + [file], NoTimeout(job.name));
          return Some(NoTimeout(job.name));
        }
      }
      assert jobs[..|jobs|] == jobs;
      return None;
    }

    lemma ReachedThroughCall(start: seq<string>, before: seq<string>, file: string, callee: string)
      requires start <= before && (forall k :: |start| <= k < |before| ==> Reaches(workflows, file, before[k]))
      requires Edge(workflows, file, callee) && ReachedFrom(before, callee)
      ensures ReachedFrom(start, file)
    {
      forall k | |start| <= k < |finished| ensures Reaches(workflows, file, finished[k]) {
        if k < |before| {
          assert before[k] == finished[k];
        } else {
          ReachesThrough(workflows, file, callee, finished[k]);
        }
      }
    }
  }

  /**
   * The walk from the validators ends. It succeeds exactly when no path from them shows a problem or
   * closes a cycle, and then it has visited exactly the files they reach.
   */
  method ValidateGraph(ws: Workflows, validators: seq<string>) returns (r: Result<set<string>, Problem>)
    ensures r.Success? ==> forall problem :: !Faulty(ws, validators, problem)
    ensures r.Success? ==> Covers(ws, validators, r.value)
    ensures r.Failure? ==> Faulty(ws, validators, r.error)
  {
    var walk := new Walk(ws);
    for k := 0 to |validators|
      invariant walk.workflows == ws && walk.Valid([]) && Complete(ws, validators[..k], walk.finished)
    {
      ghost var before := walk.finished;
      assert [] + [validators[k]] == [validators[k]];
      var problem := walk.Callable(validators[k], []);
      if problem.Some? {
        return Failure(problem.value);
      }
      OneMoreValidator(ws, validators, k, before, walk.finished);
    }
    assert validators[..|validators|] == validators;
    WalkIsComplete(ws, validators, walk.finished, walk.visited);
    return Success(walk.visited);
  }

  /** Exactly the files reached from the validators. */
  ghost predicate Covers(ws: Workflows, validators: seq<string>, files: set<string>) {
    forall f :: f in files <==> Reached(ws, validators, f)
  }

  ghost predicate Complete(ws: Workflows, validators: seq<string>, finished: seq<string>) {
    (forall v :: v in validators ==> v in finished) && forall f :: f in finished ==> Reached(ws, validators, f)
  }

  lemma OneMoreValidator(ws: Workflows, validators: seq<string>, k: nat, before: seq<string>, finished: seq<string>)
    requires k < |validators| && Complete(ws, validators[..k], before) && validators[k] in finished
        && before <= finished
    requires forall i :: |before| <= i < |finished| ==> Reaches(ws, validators[k], finished[i])
    ensures Complete(ws, validators[..k + 1], finished)
  {
    assert validators[..k + 1] == validators[..k] + [validators[k]];
    forall f | f in finished ensures Reached(ws, validators[..k + 1], f) {
      var i :| 0 <= i < |finished| && finished[i] == f;
      if i < |before| {
        assert f == before[i] && f in before;
        assert Reached(ws, validators[..k], f);
        var v :| v in validators[..k] && Reaches(ws, v, f);
        assert v in validators[..k + 1];
      } else {
        assert validators[k] in validators[..k + 1];
      }
    }
  }

  lemma WalkIsComplete(ws: Workflows, validators: seq<string>, finished: seq<string>, visited: set<string>)
    requires Topological(ws, finished) && Complete(ws, validators, finished)
    requires forall f :: f in visited <==> f in finished
    ensures forall problem :: !Faulty(ws, validators, problem)
    ensures Covers(ws, validators, visited)
  {
    forall problem, p | Shows(ws, p, problem) && p[0] in validators ensures false {
      FinishedHasNoFault(ws, finished, p, problem);
    }
    forall f | Reached(ws, validators, f) ensures f in finished {
      var v :| v in validators && Reaches(ws, v, f);
      var p :| Leads(ws, p, v, f);
      FinishedHasNoFault(ws, finished, p, Recursive);
    }
  }

  // ---- what files call and what is wrong with them, spelt out ----

  lemma {:induction false} BaseNameIs(reference: string, name: string)
    requires '/' in reference
    ensures BaseName(reference) == name <==> '/' !in name && exists folder :: reference == folder + "/" + name
  {
    var n := |reference| - 1;
    var init, last := reference[..n], reference[n];
    assert reference == init + [last];
    if last == '/' {
      assert reference == init + "/" + "";
      if folder :| '/' !in name && reference == folder + "/" + name { LastOf(folder + "/", name, reference); }
    } else {
      BaseNameIs(init, BaseName(init));
      var above :| init == above + "/" + BaseName(init);
      assert reference == above + "/" + (BaseName(init) + [last]);
      if folder :| '/' !in name && reference == folder + "/" + name {
        OneFolder(folder, name, above, BaseName(reference));
      }
    }
  }

  lemma LastOf(a: string, b: string, s: string)
    requires s == a + b && a != ""
    ensures b != "" ==> s[|s| - 1] == b[|b| - 1]
  {
  }

  lemma LaterIsIn(folder: string, name: string, k: nat)
    ensures |folder| < k <= |folder| + |name| && (folder + "/" + name)[k] == '/' ==> '/' in name
  {
    if |folder| < k <= |folder| + |name| {
      assert (folder + "/" + name)[k] == name[k - |folder| - 1];
    }
  }

  lemma OneFolder(folder: string, name: string, above: string, base: string)
    requires folder + "/" + name == above + "/" + base && '/' !in name && '/' !in base
    ensures name == base
  {
    var s := folder + "/" + name;
    assert s[|folder|] == '/' && s[|above|] == '/' && |s| == |folder| + 1 + |name| == |above| + 1 + |base|;
    LaterIsIn(folder, name, |above|);
    LaterIsIn(above, base, |folder|);
    assert s[|folder| + 1..] == name && s[|above| + 1..] == base;
  }

  ghost predicate StartsLocally(uses: string) { |uses| >= 20 && uses[..20] == "./.github/workflows/" }

  /** A file calls the files named last in the local references of its jobs. */
  lemma CalleesAreNamedLast(w: Workflow, callee: string)
    ensures Calls(w, callee) <==>
              '/' !in callee && exists job, folder ::
                job in w.jobs && StartsLocally(job.uses) && job.uses == folder + "/" + callee
  {
    forall job: Job
      ensures IsLocal(job) <==> StartsLocally(job.uses)
      ensures IsLocal(job) ==>
                (BaseName(job.uses) == callee <==>
                  '/' !in callee && exists folder :: job.uses == folder + "/" + callee)
    {
      assert |PREFIX| == 20;
      if IsLocal(job) {
        assert job.uses[1] == '/';
        BaseNameIs(job.uses, callee);
      }
    }
  }

  /** A sound file may be called, starts no other way but by hand, and bounds the time of each job of its own. */
  lemma SoundFiles(ws: Workflows, f: string)
    ensures Sound(ws, f) <==>
              && f in ws && ws[f].triggers in {Some({"workflow_call"}), Some({"workflow_call", "workflow_dispatch"})}
              && forall job :: job in ws[f].jobs && job.runsOn && !job.timeout ==> StartsLocally(job.uses)
  {
    assert |PREFIX| == 20;
    forall job: Job ensures IsLocal(job) <==> StartsLocally(job.uses) {}
    assert !Ails(ws, f, Unknown) <==> f in ws;
    if f in ws {
      OnlyCalled(ws[f].triggers);
      assert !Ails(ws, f, NotCallable) && !Ails(ws, f, OtherTriggers) <==> IsCallable(ws[f]) && OnlyValidates(ws[f]);
      forall job | job in ws[f].jobs ensures Unbounded(job) ==> Ails(ws, f, NoTimeout(job.name)) {}
      forall name ensures Ails(ws, f, NoTimeout(name)) <==>
                            exists job :: job in ws[f].jobs && job.name == name && Unbounded(job) {}
    }
  }

  /** What may be reported of a file by itself, and when. */
  lemma FileProblems(ws: Workflows, f: string, name: string)
    requires f in ws
    ensures !Ails(ws, f, Unknown) && !Ails(ws, f, Recursive)
    ensures Ails(ws, f, NotCallable) <==> ws[f].triggers.None? || "workflow_call" !in ws[f].triggers.value
    ensures Ails(ws, f, OtherTriggers) <==>
              ws[f].triggers.Some? && "workflow_call" in ws[f].triggers.value
              && exists t :: t in ws[f].triggers.value && t != "workflow_call" && t != "workflow_dispatch"
    ensures Ails(ws, f, NoTimeout(name)) <==>
              exists job :: job in ws[f].jobs && job.name == name && job.runsOn && !job.timeout
                            && !StartsLocally(job.uses)
  {
    assert |PREFIX| == 20;
    forall job: Job ensures IsLocal(job) <==> StartsLocally(job.uses) {}
    if ws[f].triggers.Some? && !OnlyValidates(ws[f]) {
      var t :| t in ws[f].triggers.value && t !in {"workflow_call", "workflow_dispatch"};
      assert t != "workflow_call" && t != "workflow_dispatch";
    }
  }

  lemma OnlyCalled(triggers: Option<set<string>>)
    ensures triggers.Some? && "workflow_call" in triggers.value
            && triggers.value <= {"workflow_call", "workflow_dispatch"}
       <==> triggers in {Some({"workflow_call"}), Some({"workflow_call", "workflow_dispatch"})}
  {
    if triggers.Some? {
      var s := triggers.value;
      if "workflow_call" in s && s <= {"workflow_call", "workflow_dispatch"} {
        if "workflow_dispatch" in s {
          assert s == {"workflow_call", "workflow_dispatch"};
        } else {
          assert s == {"workflow_call"};
        }
      }
    }
  }
}
