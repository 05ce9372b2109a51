/** One `RunJob` call: the pod it describes, how it waits, what it collects and what it leaves. */
module JobRun {
  import opened Prelude
  import opened LogFraming
  import opened JobNames
  import Decimal

  // ---------------------------------------------------------------- waiting for the job

  datatype Condition = Condition(kind: string, status: string, reason: string)

  /** One read of the job's status; `GetFailed` is an API error. */
  datatype Poll = GetFailed | Status(conditions: seq<Condition>)

  datatype Verdict = Completed | JobFailed(reason: string) | PollFailed | TimedOut

  /** What one condition says about the job. */
  function Says(c: Condition): Option<Verdict> {
    if c.kind == "Complete" && c.status == "True" then Some(Completed)
    else if c.kind == "Failed" && c.status == "True" then Some(JobFailed(c.reason))
    else None
  }

  /** `v` is what the first condition that decides anything says. */
  ghost predicate FirstSays(conditions: seq<Condition>, v: Verdict) {
    exists i :: 0 <= i < |conditions| && Says(conditions[i]) == Some(v)
      && forall j :: 0 <= j < i ==> Says(conditions[j]).None?
  }

  ghost predicate Undecided(p: Poll) {
    p.Status? && forall j :: 0 <= j < |p.conditions| ==> Says(p.conditions[j]).None?
  }

  ghost predicate Decides(p: Poll, v: Verdict) {
    if p.GetFailed? then v == PollFailed else FirstSays(p.conditions, v)
  }

  /** The verdict of a whole wait: that of the first poll that is not undecided, or a timeout. */
  ghost predicate Concludes(polls: seq<Poll>, v: Verdict) {
    || (v == TimedOut && forall i :: 0 <= i < |polls| ==> Undecided(polls[i]))
    || (v != TimedOut
        && exists i :: 0 <= i < |polls| && Decides(polls[i], v) && forall j :: 0 <= j < i ==> Undecided(polls[j]))
  }

  /** A wait has one verdict only. */
  lemma OneVerdict(polls: seq<Poll>, u: Verdict, v: Verdict)
    requires Concludes(polls, u) && Concludes(polls, v)
    ensures u == v
  {
  }

  /** A job is completed, or failed, by the first condition of either kind that is true. */
  lemma VerdictsAreRead(conditions: seq<Condition>)
    ensures FirstSays(conditions, Completed) <==>
              exists i :: 0 <= i < |conditions| && conditions[i].kind == "Complete" && conditions[i].status == "True"
                && forall j :: 0 <= j < i && conditions[j].status == "True" ==>
                     conditions[j].kind !in {"Complete", "Failed"}
    ensures forall reason :: FirstSays(conditions, JobFailed(reason)) <==>
              exists i :: 0 <= i < |conditions| && conditions[i] == Condition("Failed", "True", reason)
                && forall j :: 0 <= j < i && conditions[j].status == "True" ==>
                     conditions[j].kind !in {"Complete", "Failed"}
    ensures Undecided(Status(conditions)) <==>
              forall j :: 0 <= j < |conditions| && conditions[j].status == "True" ==>
                conditions[j].kind !in {"Complete", "Failed"}
  {
    assert "Complete" != "Failed" by { assert "Complete"[0] != "Failed"[0]; }
    assert forall c :: c in conditions ==>
        (Says(c).None? <==> !(c.status == "True" && c.kind in {"Complete", "Failed"}));
  }

  method Judge(p: Poll) returns (r: Option<Verdict>)
    ensures r.None? <==> Undecided(p)
    ensures r.Some? ==> Decides(p, r.value) && r.value != TimedOut
  {
    if p.GetFailed? { return Some(PollFailed); }
    for i := 0 to |p.conditions|
      invariant forall j :: 0 <= j < i ==> Says(p.conditions[j]).None?
    {
      var condition := p.conditions[i];
      if condition.kind == "Complete" && condition.status == "True" {
        return Some(Completed);
      }
      if condition.kind == "Failed" && condition.status == "True" {
        return Some(JobFailed(condition.reason));
      }
    }
    return None;
  }

  /** `polls` are the reads the deadline leaves room for. */
  method PollUntilDone(polls: seq<Poll>) returns (v: Verdict)
    ensures Concludes(polls, v)
  {
    for i := 0 to |polls|
      invariant forall j :: 0 <= j < i ==> Undecided(polls[j])
    {
      var r := Judge(polls[i]);
      if r.Some? { return r.value; }
    }
    return TimedOut;
  }

  /** The ten reads that look for the job and its annotation; a read gives the number of active
      pods, or nothing when it fails. One successful read is enough. */
  method Observe(attempts: seq<Option<nat>>) returns (seen: bool)
    requires |attempts| == 10
    ensures seen <==> exists i :: 0 <= i < 10 && attempts[i].Some?
  {
    seen := false;
    for i := 0 to 10
      invariant seen <==> exists j :: 0 <= j < i && attempts[j].Some?
    {
      if attempts[i].Some? {
        seen := true;
        if attempts[i].value == 0 { return; }
      }
    }
  }

  // ---------------------------------------------------------------- collecting the logs

  /** `logs` is nothing when they could not be fetched. */
  datatype Container = Container(name: string, logs: Option<string>)
  datatype PodLogs = PodLogs(name: string, containers: seq<Container>)

  /** The logs fetched, in order. */
  function Fetched(containers: seq<Container>): seq<string> {
    if containers == [] then []
    else (if containers[0].logs.Some? then [containers[0].logs.value] else []) + Fetched(containers[1..])
  }

  function AllFetched(pods: seq<PodLogs>): seq<string> {
    if pods == [] then [] else Fetched(pods[0].containers) + AllFetched(pods[1..])
  }

  /** Every log that could be fetched, pod by pod and container by container, and no other. */
  lemma {:induction false} FetchedInOrder(pods: seq<PodLogs>, pod: PodLogs)
    ensures AllFetched([]) == [] && AllFetched(pods + [pod]) == AllFetched(pods) + Fetched(pod.containers)
    decreases |pods|
  {
    hide Fetched;
    if pods != [] {
      assert (pods + [pod])[1..] == pods[1..] + [pod];
      FetchedInOrder(pods[1..], pod);
    } else {
      assert pods + [pod] == [pod] && [pod][1..] == [];
    }
  }

  lemma {:induction false} LogsInOrder(containers: seq<Container>, c: Container)
    ensures Fetched([]) == []
    ensures Fetched(containers + [c]) == Fetched(containers) + (if c.logs.Some? then [c.logs.value] else [])
    decreases |containers|
  {
    if containers != [] {
      assert (containers + [c])[1..] == containers[1..] + [c];
      LogsInOrder(containers[1..], c);
    } else {
      assert containers + [c] == [c] && [c][1..] == [];
    }
  }

  ghost function Outputs(mk: Markers, logs: seq<string>): string {
    if logs == [] then "" else OutputOf(Extract(mk, logs[0])) + Outputs(mk, logs[1..])
  }

  ghost function Errors(mk: Markers, logs: seq<string>): string {
    if logs == [] then "" else ErrorOf(Extract(mk, logs[0])) + Errors(mk, logs[1..])
  }

  ghost predicate NonePanics(mk: Markers, logs: seq<string>) {
    forall i :: 0 <= i < |logs| ==> !Extract(mk, logs[i]).OutOfBounds?
  }

  lemma {:induction false} OneMoreLog(mk: Markers, logs: seq<string>, log: string)
    ensures Outputs(mk, logs + [log]) == Outputs(mk, logs) + OutputOf(Extract(mk, log))
    ensures Errors(mk, logs + [log]) == Errors(mk, logs) + ErrorOf(Extract(mk, log))
  {
    hide Extract;
    if logs == [] {
      assert logs + [log] == [log] && [log][1..] == [];
    } else {
      assert (logs + [log])[1..] == logs[1..] + [log];
      OneMoreLog(mk, logs[1..], log);
    }
  }

  /** The buffers hold the sections of `logs`, after what they held before. */
  ghost predicate Holds(buffers: Buffers, mk: Markers, logs: seq<string>, output: string, error: string)
    reads buffers
  {
    && buffers.output == output + Outputs(mk, logs)
    && buffers.error == error + Errors(mk, logs)
    && NonePanics(mk, logs)
  }

  lemma NothingHeld(buffers: Buffers, mk: Markers)
    ensures Holds(buffers, mk, [], buffers.output, buffers.error)
  {
  }

  lemma HeldLogsDoNotPanic(buffers: Buffers, mk: Markers, logs: seq<string>, output: string, error: string)
    requires Holds(buffers, mk, logs, output, error)
    ensures NonePanics(mk, logs)
  {
  }

  lemma OnePanics(mk: Markers, logs: seq<string>, k: nat)
    requires k < |logs| && Extract(mk, logs[k]).OutOfBounds?
    ensures !NonePanics(mk, logs)
  {
  }

  lemma HeldAndOneMore(mk: Markers, done: seq<string>, log: string, output: string, error: string)
    ensures output + Outputs(mk, done) + OutputOf(Extract(mk, log)) == output + Outputs(mk, done + [log])
    ensures error + Errors(mk, done) + ErrorOf(Extract(mk, log)) == error + Errors(mk, done + [log])
    ensures NonePanics(mk, done) && !Extract(mk, log).OutOfBounds? ==> NonePanics(mk, done + [log])
  {
    hide Extract, Outputs, Errors, OutputOf, ErrorOf;
    OneMoreLog(mk, done, log);
  }

  method CollectOne(mk: Markers, log: string, buffers: Buffers, ghost done: seq<string>,
                    ghost output: string, ghost error: string) returns (panicked: bool)
    requires Holds(buffers, mk, done, output, error)
    modifies buffers
    ensures panicked <==> Extract(mk, log).OutOfBounds?
    ensures !panicked ==> Holds(buffers, mk, done + [log], output, error)
  {
    hide Extract, Outputs, Errors, OutputOf, ErrorOf, NonePanics;
    panicked := buffers.Callback(mk, log);
    HeldAndOneMore(mk, done, log, output, error);
  }

  /** Moving the next log from what is left to what is done. */
  lemma NextLog(done: seq<string>, containers: seq<Container>, later: seq<string>)
    requires containers != []
    ensures var rest := Fetched(containers[1..]) + later;
            match containers[0].logs
            case Some(log) => done + (Fetched(containers) + later) == (done + [log]) + rest
            case None => done + (Fetched(containers) + later) == done + rest
  {
    var tail := Fetched(containers[1..]);
    match containers[0].logs
    case None => assert Fetched(containers) == tail;
    case Some(log) =>
      assert Fetched(containers) == [log] + tail;
      Regroup(done, log, tail, later);
  }

  lemma Regroup(done: seq<string>, log: string, tail: seq<string>, later: seq<string>)
    ensures done + (([log] + tail) + later) == (done + [log]) + (tail + later)
  {
  }

  /** The buffers take the sections of every log fetched, pod by pod and container by container;
      a log with crossed markers stops the process. */
  method Collect(mk: Markers, pods: seq<PodLogs>, buffers: Buffers) returns (panicked: bool)
    modifies buffers
    ensures panicked <==> !NonePanics(mk, AllFetched(pods))
    ensures !panicked ==> Holds(buffers, mk, AllFetched(pods), old(buffers.output), old(buffers.error))
  {
    hide Extract, Holds, NonePanics, Fetched;
    ghost var all, output, error := AllFetched(pods), buffers.output, buffers.error;
    ghost var done: seq<string> := [];
    NothingHeld(buffers, mk);
    assert pods[0..] == pods;
    for i := 0 to |pods|
      invariant all == done + AllFetched(pods[i..])
      invariant Holds(buffers, mk, done, output, error)
    {
      assert pods[i..][1..] == pods[i + 1..];
      ghost var later := AllFetched(pods[i + 1..]);
      panicked, done := CollectPod(mk, pods[i].containers, buffers, done, later, all, output, error);
      if panicked { return; }
    }
    assert all == done;
    HeldLogsDoNotPanic(buffers, mk, done, output, error);
    return false;
  }

  method CollectPod(mk: Markers, containers: seq<Container>, buffers: Buffers, ghost before: seq<string>,
                    ghost later: seq<string>, ghost all: seq<string>, ghost output: string, ghost error: string)
    returns (panicked: bool, ghost done: seq<string>)
    requires Holds(buffers, mk, before, output, error)
    requires all == before + (Fetched(containers) + later)
    modifies buffers
    ensures panicked ==> !NonePanics(mk, all)
    ensures !panicked ==> Holds(buffers, mk, done, output, error) && all == done + later
  {
    hide Extract, Holds, NonePanics;
    done := before;
    assert containers[0..] == containers;
    for j := 0 to |containers|
      invariant all == done + (Fetched(containers[j..]) + later)
      invariant Holds(buffers, mk, done, output, error)
    {
      NextLog(done, containers[j..], later);
      assert containers[j..][1..] == containers[j + 1..];
      if containers[j].logs.Some? {
        var log := containers[j].logs.value;
        panicked := CollectOne(mk, log, buffers, done, output, error);
        if panicked {
          OnePanics(mk, all, |done|);
          return;
        }
        done := done + [log];
      }
    }
    return false, done;
  }

  // ---------------------------------------------------------------- waitForJobCompletion

  datatype WaitResult = Waited(verdict: Verdict) | ListFailed | Panicked

  /** What the API answers during one wait. */
  datatype Answers = Answers(attempts: seq<Option<nat>>, polls: seq<Poll>, listed: Option<seq<PodLogs>>)

  /** What one wait returns and leaves in the buffers, which held `output` and `error`. Without a
      callback, or when the job was never seen, it is the verdict; with one the pods are listed
      after the wait, and a failing list, or a log with crossed markers, hides the verdict. */
  ghost predicate Waits(answers: Answers, callback: Option<Markers>, r: WaitResult, output: string, error: string,
                        buffers: Buffers)
    reads buffers
    requires |answers.attempts| == 10
  {
    var found := callback.Some? && exists i :: 0 <= i < 10 && answers.attempts[i].Some?;
    && (r.Waited? ==> Concludes(answers.polls, r.verdict))
    && (!found ==> r.Waited? && buffers.output == output && buffers.error == error)
    && (found && answers.listed.None? ==> r == ListFailed && buffers.output == output && buffers.error == error)
    && (found && answers.listed.Some? ==>
          var logs := AllFetched(answers.listed.value); var mk := callback.value;
          && (r == Panicked <==> !NonePanics(mk, logs)) && r != ListFailed
          && (r != Panicked ==> Holds(buffers, mk, logs, output, error)))
  }

  /** The answers alone decide what a wait returns. */
  lemma OneResult(answers: Answers, callback: Option<Markers>, r: WaitResult, q: WaitResult,
                  output: string, error: string, buffers: Buffers, others: Buffers)
    requires |answers.attempts| == 10
    requires Waits(answers, callback, r, output, error, buffers) && Waits(answers, callback, q, output, error, others)
    ensures r == q
    ensures r != Panicked ==> buffers.output == others.output && buffers.error == others.error
  {
    hide AllFetched, NonePanics, Concludes;
    if r.Waited? && q.Waited? { OneVerdict(answers.polls, r.verdict, q.verdict); }
  }

  method WaitForJobCompletion(answers: Answers, annotated: bool, registered: Option<Markers>, buffers: Buffers)
    returns (r: WaitResult)
    requires |answers.attempts| == 10
    modifies buffers
    ensures Waits(answers, if annotated then registered else None, r, old(buffers.output), old(buffers.error), buffers)
  {
    hide NonePanics, Holds, AllFetched;
    var seen := Observe(answers.attempts);
    var callback: Option<Markers> := None;
    if seen && annotated { callback := registered; }
    var verdict := PollUntilDone(answers.polls);
    if callback.Some? {
      if answers.listed.None? { return ListFailed; }
      var panicked := Collect(callback.value, answers.listed.value, buffers);
      if panicked { return Panicked; }
    }
    return Waited(verdict);
  }

  // ---------------------------------------------------------------- RunJob

  type Id = (string, string)
  datatype Pod = Pod(jobName: string)
  datatype JobConfig = JobConfig(namePrefix: string, namespace: string, image: string, command: seq<string>,
                                 initScript: string, callback: Option<Markers>, deleteAfterCompletion: bool)

  /** Answers of the calls that create and clean up. */
  datatype Faults = Faults(createFails: bool, getFails: bool, listFails: bool, stuck: set<Id>, jobStuck: bool)

  datatype RunResult = Invalid | BadCommand | CreateFailed | Ran(result: WaitResult)

  predicate BelongsTo(id: Id, pod: Pod, job: Id) {
    id.0 == job.0 && pod.jobName == job.1
  }

  /** New pods that the cluster runs for a job. */
  predicate SpawnedFor(spawned: map<Id, Pod>, pods: map<Id, Pod>, job: Id) {
    forall id :: id in spawned ==> id !in pods && BelongsTo(id, spawned[id], job)
  }

  /** The pods left after the pods of `job`, but for the stuck ones, are deleted. */
  function Cleaned(pods: map<Id, Pod>, job: Id, stuck: set<Id>): map<Id, Pod> {
    map id | id in pods && (id in stuck || !BelongsTo(id, pods[id], job)) :: pods[id]
  }

  /** A configuration `RunJob` turns down, or cannot even read. */
  function Rejected(cfg: JobConfig): Option<RunResult> {
    if cfg.image == "" || cfg.command == [] then Some(Invalid)
    else if cfg.initScript == "" && cfg.command == ["/bin/bash"] then Some(BadCommand)
    else None
  }

  function JobId(cfg: JobConfig, now: nat): Id {
    (if cfg.namespace == "" then DEFAULT_NAMESPACE else cfg.namespace, JobName(cfg.namePrefix, now))
  }

  function Registered(registry: map<string, Markers>, id: Id, callback: Option<Markers>): map<string, Markers> {
    if callback.Some? then registry[JobKey(id.0, id.1) := callback.value] else registry
  }

  /** Where a job goes without a namespace of its own. */
  lemma DefaultNamespace(cfg: JobConfig, now: nat)
    ensures JobId(cfg, now).0 == if cfg.namespace == "" then "k4all-operator-system" else cfg.namespace
    ensures JobId(cfg, now).1 == cfg.namePrefix + "-" + Decimal.Format(now)
  {
  }

  class Cluster {
    var jobs: set<Id>
    var pods: map<Id, Pod>
    var registry: map<string, Markers>

    constructor ()
      ensures jobs == {} && pods == map[] && registry == map[]
    {
      jobs, pods, registry := {}, map[], map[];
    }

    /** Deletes the pods of a job that can be deleted. */
    method DeletePods(job: Id, stuck: set<Id>)
      modifies this`pods
      ensures pods == Cleaned(old(pods), job, stuck)
    {
      var listed := set id | id in pods && BelongsTo(id, pods[id], job);
      var todo := listed;
      while todo != {}
        invariant todo <= listed
        invariant forall id :: id in pods <==> id in old(pods) && (id !in listed || id in todo || id in stuck)
        invariant forall id :: id in pods ==> pods[id] == old(pods)[id]
        decreases todo
      {
        var id :| id in todo;
        todo := todo - {id};
        if id !in stuck {
          pods := map other | other in pods && other != id :: pods[other];
        }
      }
    }

    /** The job and its pods are deleted as far as the calls succeed. */
    method CleanUp(id: Id, faults: Faults)
      modifies this`pods, this`jobs
      ensures pods == if faults.getFails || faults.listFails then old(pods) else Cleaned(old(pods), id, faults.stuck)
      ensures jobs == if faults.getFails || faults.jobStuck then old(jobs) else old(jobs) - {id}
    {
      if faults.getFails { return; }
      if !faults.listFails { DeletePods(id, faults.stuck); }
      if !faults.jobStuck { jobs := jobs - {id}; }
    }

    method RegisterCallback(id: Id, callback: Option<Markers>)
      modifies this`registry
      ensures registry == Registered(old(registry), id, callback)
    {
      if callback.Some? { registry := registry[JobKey(id.0, id.1) := callback.value]; }
    }

    method CreateJob(id: Id, spawned: map<Id, Pod>, fails: bool) returns (created: bool)
      modifies this`jobs, this`pods
      ensures created <==> !fails && id !in old(jobs)
      ensures jobs == if created then old(jobs) + {id} else old(jobs)
      ensures pods == if created then old(pods) + spawned else old(pods)
    {
      if fails || id in jobs { return false; }
      jobs := jobs + {id};
      pods := pods + spawned;
      return true;
    }

    /** The cleanup changes neither the result nor what was collected; a panic skips it. */
    method AwaitAndCleanUp(config: JobConfig, id: Id, answers: Answers, faults: Faults, buffers: Buffers)
      returns (result: WaitResult)
      requires |answers.attempts| == 10 && config.deleteAfterCompletion
      requires registry == Registered(registry, id, config.callback)
      modifies this`jobs, this`pods, buffers
      ensures Waits(answers, config.callback, result, old(buffers.output), old(buffers.error), buffers)
      ensures jobs == if result == Panicked || faults.getFails || faults.jobStuck then old(jobs) else old(jobs) - {id}
      ensures pods == if result == Panicked || faults.getFails || faults.listFails then old(pods)
                      else Cleaned(old(pods), id, faults.stuck)
    {
      hide JobKey, Waits, Cleaned;
      var key := JobKey(id.0, id.1);
      var registered: Option<Markers> := if key in registry then Some(registry[key]) else None;
      result := WaitForJobCompletion(answers, config.callback.Some?, registered, buffers);
      if result == Panicked { return; }
      if config.deleteAfterCompletion { CleanUp(id, faults); }
    }

    /** `spawned` are the pods the cluster runs for the job while the call waits. */
    method RunJob(cfg: JobConfig, now: nat, answers: Answers, faults: Faults, spawned: map<Id, Pod>, buffers: Buffers)
      returns (r: RunResult)
      requires |answers.attempts| == 10
      requires SpawnedFor(spawned, pods, JobId(cfg, now))
      modifies this, buffers
      ensures r == Invalid <==> cfg.image == "" || cfg.command == []
      ensures r == BadCommand <==>
                cfg.image != "" && cfg.initScript == "" && cfg.command == ["/bin/bash"]
      ensures Rejected(cfg).Some? ==> r == Rejected(cfg).value && registry == old(registry)
      ensures Rejected(cfg).None? ==>
                registry == Registered(old(registry), JobId(cfg, now), cfg.callback)
      ensures r.Ran? <==> Rejected(cfg).None? && !faults.createFails && JobId(cfg, now) !in old(jobs)
      ensures !r.Ran? ==> jobs == old(jobs) && pods == old(pods)
      ensures r.Ran? ==> Waits(answers, cfg.callback, r.result, old(buffers.output), old(buffers.error), buffers)
      ensures !r.Ran? ==> buffers.output == old(buffers.output) && buffers.error == old(buffers.error)
      ensures r.Ran? ==>
                jobs == if r.result == Panicked || faults.getFails || faults.jobStuck
                        then old(jobs) + {JobId(cfg, now)} else old(jobs)
      ensures r.Ran? ==>
                pods == if r.result == Panicked || faults.getFails || faults.listFails
                        then old(pods) + spawned
                        else Cleaned(old(pods) + spawned, JobId(cfg, now), faults.stuck)
    {
      hide JobKey, JobName, Waits, Cleaned, SpawnedFor;
      if cfg.image == "" { return Invalid; }
      if cfg.command == [] { return Invalid; }
      var config := cfg;
      if config.namespace == "" { config := config.(namespace := DEFAULT_NAMESPACE); }
      if !config.deleteAfterCompletion { config := config.(deleteAfterCompletion := true); }
      var jobName := JobName(config.namePrefix, now);
      var id := (config.namespace, jobName);
      if config.initScript == "" && config.command[0] == "/bin/bash" && |config.command| == 1 {
        return BadCommand;
      }
      RegisterCallback(id, config.callback);
      var created := CreateJob(id, spawned, faults.createFails);
      if !created { return CreateFailed; }
      var result := AwaitAndCleanUp(config, id, answers, faults, buffers);
      return Ran(result);
    }
  }

  /** When the calls after the creation succeed, the pods are those of before the call if and only
      if none of them already carried the label of the new job. */
  lemma NoResidue(before: map<Id, Pod>, spawned: map<Id, Pod>, job: Id)
    requires SpawnedFor(spawned, before, job)
    ensures Cleaned(before + spawned, job, {}) == before
            <==> forall id :: id in before ==> !BelongsTo(id, before[id], job)
  {
  }

  /** Pods of other namespaces and of other jobs are left alone, stuck ones stay. */
  lemma OnlyOwnPodsGo(pods: map<Id, Pod>, job: Id, stuck: set<Id>, id: Id)
    requires id in pods
    ensures id in Cleaned(pods, job, stuck) <==> id.0 != job.0 || pods[id].jobName != job.1 || id in stuck
    ensures id in Cleaned(pods, job, stuck) ==> Cleaned(pods, job, stuck)[id] == pods[id]
  {
  }

  // ---------------------------------------------------------------- RunHelmCommand, RunHostCommand

  ghost predicate Seen(answers: Answers)
    requires |answers.attempts| == 10
  {
    exists i :: 0 <= i < 10 && answers.attempts[i].Some?
  }

  /** The logs the callback is given: none when the job was never seen, or no log could be fetched. */
  ghost function LogsSeen(answers: Answers): seq<string>
    requires |answers.attempts| == 10
  {
    if Seen(answers) && answers.listed.Some? then AllFetched(answers.listed.value) else []
  }

  /** `RunJob` returns no error: the job is seen to complete, and looking for its logs does not fail. */
  ghost predicate Completes(answers: Answers, mk: Markers)
    requires |answers.attempts| == 10
  {
    && Concludes(answers.polls, Completed)
    && (Seen(answers) ==> answers.listed.Some? && NonePanics(mk, LogsSeen(answers)))
  }

  /** Success of a Helm command, as its caller is told: the job completed, which it does whatever
      becomes of the command, and no error text was collected. */
  ghost predicate HelmSucceeds(answers: Answers)
    requires |answers.attempts| == 10
  {
    Completes(answers, HELM) && Errors(HELM, LogsSeen(answers)) == ""
  }

  /** A fetched log makes the callback slice out of bounds. */
  ghost predicate Panics(answers: Answers, mk: Markers)
    requires |answers.attempts| == 10
  {
    Seen(answers) && answers.listed.Some? && !NonePanics(mk, LogsSeen(answers))
  }

  datatype CommandResult = Succeeded(output: string) | Unsuccessful | Crashed

  lemma WaitCompletes(answers: Answers, mk: Markers, r: WaitResult, buffers: Buffers)
    requires |answers.attempts| == 10 && Waits(answers, Some(mk), r, "", "", buffers)
    ensures r == Waited(Completed) <==> Completes(answers, mk)
    ensures r == Waited(Completed) ==>
              buffers.output == Outputs(mk, LogsSeen(answers)) && buffers.error == Errors(mk, LogsSeen(answers))
    ensures r == Panicked <==> Panics(answers, mk)
  {
    hide Concludes, NonePanics, AllFetched, OutputOf, ErrorOf, Extract;
    if r.Waited? && Concludes(answers.polls, Completed) { OneVerdict(answers.polls, r.verdict, Completed); }
  }

  /** A job can be started for this configuration at this second. */
  predicate Startable(cfg: JobConfig, now: nat, faults: Faults, jobs: set<Id>) {
    Rejected(cfg).None? && !faults.createFails && JobId(cfg, now) !in jobs
  }

  /** The job of a Helm command, named at second `named`. */
  function HelmConfig(namespace: string, image: string, script: string, named: nat): JobConfig {
    JobConfig("helm-" + Decimal.Format(named), namespace, image, ["/bin/bash", "-c", "echo 'Job completed'"], script,
              Some(HELM), true)
  }

  function HostConfig(namespace: string, image: string, script: string, named: nat): JobConfig {
    JobConfig("host-cmd-" + Decimal.Format(named), namespace, image, ["echo", "Done"], script, Some(HOST), true)
  }

  /** The caller is told of success if and only if the job could be started and the answers say so;
      what Helm did has no other part in it. */
  method RunHelmCommand(cluster: Cluster, args: seq<string>, namespace: string, image: string, script: string,
                        named: nat, now: nat, answers: Answers, faults: Faults, spawned: map<Id, Pod>)
    returns (r: CommandResult)
    requires |answers.attempts| == 10
    requires SpawnedFor(spawned, cluster.pods, JobId(HelmConfig(namespace, image, script, named), now))
    modifies cluster
    ensures var cfg := HelmConfig(namespace, image, script, named);
            && (r.Succeeded? <==> args != [] && Startable(cfg, now, faults, old(cluster.jobs)) && HelmSucceeds(answers))
            && (r.Succeeded? ==> r.output == Outputs(HELM, LogsSeen(answers)))
            && (r.Succeeded? ==>
                  forall printed: seq<Printed> :: Shows(answers, HELM, printed) ==> r.output == JoinedOutputs(printed))
            && (r.Crashed? <==>
                  args != [] && Startable(cfg, now, faults, old(cluster.jobs)) && Panics(answers, HELM))
  {
    hide Waits, Completes, Panics, Concludes, Seen, Shows, JoinedOutputs, Rejected, JobId, Cleaned, Registered,
         LogsSeen, Outputs, Errors;
    PrintedDecides(answers, HELM);
    if args == [] { return Unsuccessful; }
    var buffers := new Buffers();
    var cfg := HelmConfig(namespace, image, script, named);
    var ran := cluster.RunJob(cfg, now, answers, faults, spawned, buffers);
    if ran.Ran? { WaitCompletes(answers, HELM, ran.result, buffers); }
    if ran == Ran(Panicked) { return Crashed; }
    if ran != Ran(Waited(Completed)) { return Unsuccessful; }
    if buffers.error != "" { return Unsuccessful; }
    return Succeeded(buffers.output);
  }

  /** A host command succeeds whatever it writes to its error output. */
  method RunHostCommand(cluster: Cluster, args: seq<string>, namespace: string, image: string, script: string,
                        named: nat, now: nat, answers: Answers, faults: Faults, spawned: map<Id, Pod>)
    returns (r: CommandResult)
    requires |answers.attempts| == 10
    requires SpawnedFor(spawned, cluster.pods, JobId(HostConfig(namespace, image, script, named), now))
    modifies cluster
    ensures var cfg := HostConfig(namespace, image, script, named);
            && (r.Succeeded? <==>
                  args != [] && Startable(cfg, now, faults, old(cluster.jobs)) && Completes(answers, HOST))
            && (r.Succeeded? ==> r.output == TrimSpace(Outputs(HOST, LogsSeen(answers))))
            && (r.Succeeded? ==>
                  forall printed: seq<Printed> :: Shows(answers, HOST, printed) ==>
                    r.output == TrimSpace(JoinedOutputs(printed)))
            && (r.Crashed? <==>
                  args != [] && Startable(cfg, now, faults, old(cluster.jobs)) && Panics(answers, HOST))
  {
    hide Waits, Completes, Panics, Concludes, Seen, Shows, JoinedOutputs, Rejected, JobId, Cleaned, Registered,
         LogsSeen, Outputs, Errors, TrimSpace;
    PrintedDecides(answers, HOST);
    if args == [] { return Unsuccessful; }
    var buffers := new Buffers();
    var cfg := HostConfig(namespace, image, script, named);
    var ran := cluster.RunJob(cfg, now, answers, faults, spawned, buffers);
    if ran.Ran? { WaitCompletes(answers, HOST, ran.result, buffers); }
    if ran == Ran(Panicked) { return Crashed; }
    if ran != Ran(Waited(Completed)) { return Unsuccessful; }
    return Succeeded(TrimSpace(buffers.output));
  }

  /** When no log reaches the caller, a completed job is a success, whatever the command did. */
  lemma LostLogIsSuccess(answers: Answers)
    requires |answers.attempts| == 10 && Concludes(answers.polls, Completed)
    requires Seen(answers) ==> answers.listed.Some?
    ensures LogsSeen(answers) == [] ==> HelmSucceeds(answers)
  {
    hide Concludes, AllFetched;
  }

  /** When the one log does, the command is taken for successful if and only if it wrote nothing
      visible to its error output: its exit code is not looked at. */
  lemma ErrorTextDecides(answers: Answers, head: string, out: string, err: string, tail: string)
    requires |answers.attempts| == 10 && Concludes(answers.polls, Completed)
    requires CleanHead(HELM, head) && WellFormed(HELM) && Unforged(HELM, out, err)
    requires Seen(answers) && answers.listed.Some? && LogsSeen(answers) == [Log(HELM, head, out, err, tail)]
    ensures HelmSucceeds(answers) <==> TrimSpace(err) == ""
  {
    CaptureIsExact(HELM, head, out, err, tail);
    hide Concludes, AllFetched, Extract, TrimSpace, Log, Unforged, CleanHead;
    var log := Log(HELM, head, out, err, tail);
    OneLog(log);
    assert LogsSeen(answers)[0] == log;
  }

  lemma OneLog(log: string)
    ensures Errors(HELM, [log]) == ErrorOf(Extract(HELM, log))
  {
    hide Extract;
    assert [log][1..] == [];
    assert Errors(HELM, [log][1..]) == "";
  }

  // ---------------------------------------------------------------- what a caller gets

  /** What one run of a script prints. */
  datatype Printed = Printed(head: string, out: string, err: string, tail: string)

  function LogsOf(mk: Markers, printed: seq<Printed>): seq<string> {
    if printed == [] then []
    else [Log(mk, printed[0].head, printed[0].out, printed[0].err, printed[0].tail)] + LogsOf(mk, printed[1..])
  }

  /** Clean heads, and outputs that forge no marker. */
  predicate Plain(mk: Markers, printed: seq<Printed>)
    requires WellFormed(mk)
  {
    forall i :: 0 <= i < |printed| ==> CleanHead(mk, printed[i].head) && Unforged(mk, printed[i].out, printed[i].err)
  }

  /** The trimmed outputs, one after the other. */
  function JoinedOutputs(printed: seq<Printed>): string {
    if printed == [] then "" else TrimSpace(printed[0].out) + JoinedOutputs(printed[1..])
  }

  predicate NoVisibleError(printed: seq<Printed>) {
    forall i :: 0 <= i < |printed| ==> TrimSpace(printed[i].err) == ""
  }

  /** What is collected from printed logs is what was printed. */
  lemma {:induction false} PrintedIsCollected(mk: Markers, printed: seq<Printed>)
    requires WellFormed(mk) && Plain(mk, printed)
    ensures Outputs(mk, LogsOf(mk, printed)) == JoinedOutputs(printed)
    ensures Errors(mk, LogsOf(mk, printed)) == "" <==> NoVisibleError(printed)
    ensures NonePanics(mk, LogsOf(mk, printed))
  {
    hide Extract, TrimSpace, Log, WellFormed;
    if printed != [] {
      var p, rest := printed[0], LogsOf(mk, printed[1..]);
      var logs := LogsOf(mk, printed);
      assert Plain(mk, printed[1..]);
      PrintedIsCollected(mk, printed[1..]);
      CaptureIsExact(mk, p.head, p.out, p.err, p.tail);
      hide CleanHead, Unforged;
      assert logs[0] == Log(mk, p.head, p.out, p.err, p.tail) && logs[1..] == rest;
      assert NoVisibleError(printed) <==> TrimSpace(p.err) == "" && NoVisibleError(printed[1..]) by {
        assert forall i :: 0 <= i < |printed| - 1 ==> printed[1..][i] == printed[i + 1];
        assert forall i :: 1 <= i < |printed| ==> printed[1..][i - 1] == printed[i];
      }
      assert forall i :: 1 <= i < |logs| ==> logs[i] == rest[i - 1];
    }
  }

  /** The logs a caller sees are printed ones, clean and unforged. */
  ghost predicate Shows(answers: Answers, mk: Markers, printed: seq<Printed>)
    requires |answers.attempts| == 10
  {
    WellFormed(mk) && Plain(mk, printed) && LogsSeen(answers) == LogsOf(mk, printed)
  }

  /** When the logs the caller sees are printed ones, what was printed decides about the output, and
      about the success of a Helm command. */
  lemma PrintedDecides(answers: Answers, mk: Markers)
    requires |answers.attempts| == 10
    ensures forall printed: seq<Printed> :: Shows(answers, mk, printed) ==>
              && Outputs(mk, LogsSeen(answers)) == JoinedOutputs(printed)
              && (Errors(mk, LogsSeen(answers)) == "" <==> NoVisibleError(printed))
              && NonePanics(mk, LogsSeen(answers))
  {
    hide LogsSeen, NonePanics, Outputs, Errors, NoVisibleError;
    forall printed: seq<Printed> | Shows(answers, mk, printed)
      ensures Outputs(mk, LogsSeen(answers)) == JoinedOutputs(printed)
      ensures Errors(mk, LogsSeen(answers)) == "" <==> NoVisibleError(printed)
      ensures NonePanics(mk, LogsSeen(answers))
    {
      PrintedIsCollected(mk, printed);
    }
  }

  /** A completed Helm job with printed logs is a success exactly when no error text is visible. */
  lemma PrintedHelm(answers: Answers, printed: seq<Printed>)
    requires |answers.attempts| == 10 && Shows(answers, HELM, printed)
    ensures HelmSucceeds(answers) <==>
              Concludes(answers.polls, Completed) && (Seen(answers) ==> answers.listed.Some?) && NoVisibleError(printed)
  {
    hide Concludes, Seen, LogsSeen, NonePanics, Outputs, Errors, NoVisibleError;
    PrintedDecides(answers, HELM);
  }

  lemma OneOutput(p: Printed)
    ensures JoinedOutputs([p]) == TrimSpace(p.out)
  {
    assert [p][1..] == [];
  }

  // ---------------------------------------------------------------- the pod's volumes

  datatype HostMount = HostMount(hostPath: string, containerPath: string, kind: string)
  datatype Volume = Volume(name: string, path: string, kind: string)
  datatype VolumeMount = VolumeMount(name: string, mountPath: string)

  const DEFAULT_MOUNTS := [
    HostMount("/etc/k4all-config.json", "/etc/k4all-config.json", "File"),
    HostMount("/opt/k4all", "/opt/k4all", "DirectoryOrCreate"),
    HostMount("/usr/local/share", "/usr/local/share", "DirectoryOrCreate"),
    HostMount("/usr/local/bin", "/usr/local/bin", "DirectoryOrCreate"),
    HostMount("/dev", "/dev", "Directory")]

  function Asked(additional: seq<HostMount>): seq<HostMount> {
    if additional == [] then DEFAULT_MOUNTS else additional
  }

  function RootPath(path: string): string {
    if path == "" then "/host" else path
  }

  function VolumeName(i: nat): string {
    "host-volume-" + Decimal.Format(i)
  }

  lemma VolumeNamesDistinct(i: nat, j: nat)
    requires VolumeName(i) == VolumeName(j)
    ensures i == j
  {
    assert VolumeName(i)[12..] == Decimal.Format(i) && VolumeName(j)[12..] == Decimal.Format(j);
    Decimal.FormatInjective(i, j);
  }

  lemma HostRootIsAnotherName(i: nat)
    ensures VolumeName(i) != "host-root"
  {
    assert VolumeName(i)[5] == 'v' && "host-root"[5] == 'r';
  }

  /** Volumes and mounts pair up by name, no name is used twice, and each mount asked for is backed
      by its own path and type. */
  method AssembleVolumes(hostRoot: bool, hostRootPath: string, additional: seq<HostMount>)
    returns (volumes: seq<Volume>, mounts: seq<VolumeMount>)
    ensures |volumes| == |mounts|
    ensures forall i :: 0 <= i < |volumes| ==> volumes[i].name == mounts[i].name
    ensures forall i, j :: 0 <= i < j < |volumes| ==> volumes[i].name != volumes[j].name
    ensures var asked := if additional == [] then DEFAULT_MOUNTS else additional;
            var k := if hostRoot then 1 else 0;
            && |volumes| == k + |asked|
            && (hostRoot ==> volumes[0] == Volume("host-root", "/", "Directory")
                             && mounts[0].mountPath == (if hostRootPath == "" then "/host" else hostRootPath))
            && forall i :: 0 <= i < |asked| ==>
                 && volumes[k + i].path == asked[i].hostPath && volumes[k + i].kind == asked[i].kind
                 && mounts[k + i].mountPath == asked[i].containerPath
  {
    assert Asked(additional) == if additional == [] then DEFAULT_MOUNTS else additional;
    assert RootPath(hostRootPath) == if hostRootPath == "" then "/host" else hostRootPath;
    hide Asked, VolumeName, RootPath;
    volumes, mounts := [], [];
    if hostRoot {
      mounts := mounts + [VolumeMount("host-root", RootPath(hostRootPath))];
      volumes := volumes + [Volume("host-root", "/", "Directory")];
    }
    var asked := Asked(additional);
    var k := |volumes|;
    for i := 0 to |asked|
      invariant |volumes| == |mounts| == k + i
      invariant hostRoot ==> volumes[0] == Volume("host-root", "/", "Directory")
                             && mounts[0] == VolumeMount("host-root", RootPath(hostRootPath))
      invariant forall j :: 0 <= j < i ==>
                  && volumes[k + j] == Volume(VolumeName(j), asked[j].hostPath, asked[j].kind)
                  && mounts[k + j] == VolumeMount(VolumeName(j), asked[j].containerPath)
    {
      mounts := mounts + [VolumeMount(VolumeName(i), asked[i].containerPath)];
      volumes := volumes + [Volume(VolumeName(i), asked[i].hostPath, asked[i].kind)];
    }
    forall i, j | 0 <= i < j < |volumes| ensures volumes[i].name != volumes[j].name {
      assert volumes[j].name == VolumeName(j - k);
      if i < k {
        HostRootIsAnotherName(j - k);
      } else {
        assert volumes[i].name == VolumeName(i - k);
        if VolumeName(i - k) == VolumeName(j - k) { VolumeNamesDistinct(i - k, j - k); }
      }
    }
    forall i | 0 <= i < |volumes| ensures volumes[i].name == mounts[i].name {
      if i >= k { assert volumes[i].name == VolumeName(i - k) == mounts[i].name; }
    }
  }
}
