/** Names of jobs and keys of the callback registry (internal/controller/jobrunner). */
module JobNames {
  import opened Decimal

  const DEFAULT_NAMESPACE := "k4all-operator-system"

  /** `fmt.Sprintf("%s-%d", prefix, second)`. */
  function JobName(prefix: string, second: nat): string {
    prefix + ("-" + Format(second))
  }

  /** `fmt.Sprintf("%s/%s", namespace, name)`, also the text of a `NamespacedName`. */
  function JobKey(namespace: string, name: string): string {
    namespace + ("/" + name)
  }

  predicate Free(s: string, c: char) {
    forall i :: 0 <= i < |s| ==> s[i] != c
  }

  lemma NotBeforeFirst(a: string, x: string, b: string, y: string, c: char)
    requires Free(b, c) && a + ([c] + x) == b + ([c] + y)
    ensures |a| >= |b|
  {
    assert (a + ([c] + x))[|a|] == c;
    assert forall k :: 0 <= k < |b| ==> (b + ([c] + y))[k] == b[k];
  }

  lemma NotAfterLast(a: string, x: string, b: string, y: string, c: char)
    requires Free(x, c) && a + ([c] + x) == b + ([c] + y)
    ensures |b| <= |a|
  {
    var s := a + ([c] + x);
    assert (b + ([c] + y))[|b|] == c;
    assert forall k :: |a| < k < |s| ==> s[k] == x[k - |a| - 1];
  }

  lemma CutAt(a: string, x: string, b: string, y: string, c: char)
    requires a + ([c] + x) == b + ([c] + y) && |a| == |b|
    ensures a == b && x == y
  {
    var s := a + ([c] + x);
    assert s[..|a|] == a && s[..|b|] == b;
    assert s[|a| + 1..] == x && s[|b| + 1..] == y;
  }

  /** A text is cut in one way only at the first separator. */
  lemma FirstSeparator(a: string, x: string, b: string, y: string, c: char)
    requires Free(a, c) && Free(b, c)
    requires a + ([c] + x) == b + ([c] + y)
    ensures a == b && x == y
  {
    NotBeforeFirst(a, x, b, y, c);
    NotBeforeFirst(b, y, a, x, c);
    CutAt(a, x, b, y, c);
  }

  /** And in one way only at the last. */
  lemma LastSeparator(a: string, x: string, b: string, y: string, c: char)
    requires Free(x, c) && Free(y, c)
    requires a + ([c] + x) == b + ([c] + y)
    ensures a == b && x == y
  {
    NotAfterLast(a, x, b, y, c);
    NotAfterLast(b, y, a, x, c);
    CutAt(a, x, b, y, c);
  }

  /** Different prefixes or seconds give different job names, even when a prefix ends in digits. */
  lemma JobNameInjective(p: string, m: nat, q: string, n: nat)
    requires JobName(p, m) == JobName(q, n)
    ensures p == q && m == n
  {
    LastSeparator(p, Format(m), q, Format(n), '-');
    FormatInjective(m, n);
  }

  lemma JobKeyInjective(ns: string, a: string, ms: string, b: string)
    requires Free(ns, '/') && Free(ms, '/')
    requires JobKey(ns, a) == JobKey(ms, b)
    ensures ns == ms && a == b
  {
    FirstSeparator(ns, a, ms, b, '/');
  }
}

/** Any number of `RunJob` calls at once around the shared callback registry. */
module JobRegistry {
  import opened Prelude
  import opened JobNames

  /** One call: its configuration and the second at which it names its job. */
  datatype Call = Call(namespace: string, prefix: string, second: nat, hasCallback: bool)

  datatype Phase = Named | Registered | Failed | Running | Watching(callback: Option<nat>) | Finished
  datatype Entry = Entry(call: Call, phase: Phase)

  /** `creator` is the call whose job the pod belongs to. */
  datatype Pod = Pod(namespace: string, jobName: string, creator: nat)
  datatype Delivery = Delivery(callback: nat, pod: Pod)

  /** Calls are numbered by position; the registry maps a key to the call whose callback it holds,
      the job table maps a job to the call that created it. */
  datatype State = State(calls: seq<Entry>, registry: map<string, nat>, jobs: map<(string, string), nat>,
                         pods: seq<Pod>, delivered: seq<Delivery>)

  const EMPTY := State([], map[], map[], [], [])

  datatype Action =
    | Begin(call: Call)
    | Register(id: nat)
    | Create(id: nat, accepted: bool)
    | Spawn(namespace: string, jobName: string)
    | Fetch(id: nat, sawJob: bool)
    | Deliver(id: nat, pod: nat)
    | Finish(id: nat, deleted: bool)

  function NamespaceOf(c: Call): string {
    if c.namespace == "" then DEFAULT_NAMESPACE else c.namespace
  }

  function NameOf(c: Call): string {
    JobName(c.prefix, c.second)
  }

  function KeyOf(c: Call): string {
    JobKey(NamespaceOf(c), NameOf(c))
  }

  function JobOf(c: Call): (string, string) {
    (NamespaceOf(c), NameOf(c))
  }

  predicate At(s: State, id: nat, phase: Phase) {
    id < |s.calls| && s.calls[id].phase == phase
  }

  function Enter(s: State, id: nat, phase: Phase): State
    requires id < |s.calls|
  {
    s.(calls := s.calls[id := s.calls[id].(phase := phase)])
  }

  /** The effect of an action; one that is not possible changes nothing. A call whose creation fails
      returns at once; one that gets further cleans up at its end, as far as the calls succeed, so that
      pods may be left over. */
  function Apply(s: State, a: Action): State {
    match a
    case Begin(c) => s.(calls := s.calls + [Entry(c, Named)])
    case Register(id) =>
      if !At(s, id, Named) then s
      else
        var c := s.calls[id].call;
        Enter(s, id, Registered).(registry := if c.hasCallback then s.registry[KeyOf(c) := id] else s.registry)
    case Create(id, accepted) =>
      if !At(s, id, Registered) then s
      else if !accepted || JobOf(s.calls[id].call) in s.jobs then Enter(s, id, Failed)
      else Enter(s, id, Running).(jobs := s.jobs[JobOf(s.calls[id].call) := id])
    case Spawn(ns, name) =>
      if (ns, name) in s.jobs then s.(pods := s.pods + [Pod(ns, name, s.jobs[(ns, name)])]) else s
    case Fetch(id, sawJob) =>
      if !At(s, id, Running) then s
      else Enter(s, id, Watching(Lookup(s, s.calls[id].call, sawJob)))
    case Deliver(id, k) =>
      if id < |s.calls| && s.calls[id].phase.Watching? && s.calls[id].phase.callback.Some? && k < |s.pods|
         && (s.pods[k].namespace, s.pods[k].jobName) == JobOf(s.calls[id].call)
      then s.(delivered := s.delivered + [Delivery(s.calls[id].phase.callback.value, s.pods[k])])
      else s
    case Finish(id, deleted) =>
      if id >= |s.calls| || !(s.calls[id].phase.Running? || s.calls[id].phase.Watching?) then s
      else Enter(s, id, Finished).(jobs := if deleted then s.jobs - {JobOf(s.calls[id].call)} else s.jobs)
  }

  /** The callback `waitForJobCompletion` finds: only for a job it could read, whose annotation says
      that there is one. */
  function Lookup(s: State, c: Call, sawJob: bool): Option<nat> {
    var key := KeyOf(c);
    if sawJob && JobOf(c) in s.jobs && s.jobs[JobOf(c)] < |s.calls| && s.calls[s.jobs[JobOf(c)]].call.hasCallback
       && key in s.registry
    then Some(s.registry[key]) else None
  }

  function Run(s: State, acts: seq<Action>): State
    decreases |acts|
  {
    if acts == [] then s else Run(Apply(s, acts[0]), acts[1..])
  }

  // ---------------------------------------------------------------- safety

  /** Everything filed under a key or a job belongs to a call with that key or job. */
  predicate Inv(s: State) {
    && (forall k :: k in s.registry ==> s.registry[k] < |s.calls| && Answers(s.calls[s.registry[k]].call, k))
    && (forall j :: j in s.jobs ==> s.jobs[j] < |s.calls| && JobOf(s.calls[s.jobs[j]].call) == j)
    && (forall i :: 0 <= i < |s.pods| ==> Owned(s, s.pods[i]))
    && Watched(s)
    && (forall i :: 0 <= i < |s.delivered| ==> WellDelivered(s, s.delivered[i]))
  }

  /** The call has a callback, filed under this key. */
  predicate Answers(c: Call, key: string) {
    c.hasCallback && KeyOf(c) == key
  }

  predicate Owned(s: State, p: Pod) {
    p.creator < |s.calls| && JobOf(s.calls[p.creator].call) == (p.namespace, p.jobName)
  }

  predicate WellDelivered(s: State, d: Delivery) {
    && Owned(s, d.pod)
    && d.callback < |s.calls| && Answers(s.calls[d.callback].call, JobKey(d.pod.namespace, d.pod.jobName))
  }

  /** Calls keep their configuration. */
  predicate Extends(s: State, t: State) {
    |s.calls| <= |t.calls| && forall i :: 0 <= i < |s.calls| ==> t.calls[i].call == s.calls[i].call
  }

  /** What is filed stays well filed when calls only move on. */
  lemma FilesCarry(s: State, t: State)
    requires Inv(s) && Extends(s, t)
    ensures forall k :: k in s.registry ==> s.registry[k] < |t.calls| && Answers(t.calls[s.registry[k]].call, k)
    ensures forall j :: j in s.jobs ==> s.jobs[j] < |t.calls| && JobOf(t.calls[s.jobs[j]].call) == j
    ensures forall i :: 0 <= i < |s.pods| ==> Owned(t, s.pods[i])
    ensures forall i :: 0 <= i < |s.delivered| ==> WellDelivered(t, s.delivered[i])
  {
    hide JobKey, JobName;
  }

  /** Every watched callback stands for the key of the call that watches it. */
  predicate Watched(s: State) {
    forall i :: 0 <= i < |s.calls| && s.calls[i].phase.Watching? && s.calls[i].phase.callback.Some? ==>
      var b := s.calls[i].phase.callback.value;
      b < |s.calls| && Answers(s.calls[b].call, KeyOf(s.calls[i].call))
  }

  lemma WatchedCarry(s: State, t: State, id: nat)
    requires Watched(s) && Extends(s, t) && |t.calls| == |s.calls| && id < |s.calls|
    requires forall i :: 0 <= i < |s.calls| && i != id ==> t.calls[i] == s.calls[i]
    requires t.calls[id] == s.calls[id] || !t.calls[id].phase.Watching? || t.calls[id].phase.callback.None?
             || (t.calls[id].phase.callback.value < |s.calls|
                 && Answers(s.calls[t.calls[id].phase.callback.value].call, KeyOf(s.calls[id].call)))
    ensures Watched(t)
  {
    hide JobKey, JobName;
  }

  lemma BeginKeeps(s: State, c: Call)
    requires Inv(s)
    ensures Inv(Apply(s, Begin(c))) && Extends(s, Apply(s, Begin(c)))
  {
    hide JobKey, JobName;
    FilesCarry(s, Apply(s, Begin(c)));
  }

  lemma RegisterKeeps(s: State, id: nat)
    requires Inv(s) && id < |s.calls|
    ensures Inv(Apply(s, Register(id))) && Extends(s, Apply(s, Register(id)))
  {
    hide JobKey, JobName, Owned, WellDelivered, Watched;
    var t := Apply(s, Register(id));
    FilesCarry(s, t);
    WatchedCarry(s, t, id);
  }

  lemma CreateKeeps(s: State, id: nat, accepted: bool)
    requires Inv(s) && id < |s.calls|
    ensures Inv(Apply(s, Create(id, accepted))) && Extends(s, Apply(s, Create(id, accepted)))
  {
    hide JobKey, JobName, Owned, WellDelivered, Watched;
    var t := Apply(s, Create(id, accepted));
    FilesCarry(s, t);
    WatchedCarry(s, t, id);
  }

  lemma FinishKeeps(s: State, id: nat, deleted: bool)
    requires Inv(s) && id < |s.calls|
    ensures Inv(Apply(s, Finish(id, deleted))) && Extends(s, Apply(s, Finish(id, deleted)))
  {
    hide JobKey, JobName, Owned, WellDelivered, Watched;
    var t := Apply(s, Finish(id, deleted));
    FilesCarry(s, t);
    WatchedCarry(s, t, id);
  }

  lemma FetchKeeps(s: State, id: nat, sawJob: bool)
    requires Inv(s) && id < |s.calls|
    ensures Inv(Apply(s, Fetch(id, sawJob))) && Extends(s, Apply(s, Fetch(id, sawJob)))
  {
    hide JobKey, JobName, Owned, WellDelivered, Watched;
    var t := Apply(s, Fetch(id, sawJob));
    FilesCarry(s, t);
    if At(s, id, Running) { WatchedCarry(s, t, id); }
  }

  lemma ApplyKeeps(s: State, a: Action)
    requires Inv(s)
    ensures Inv(Apply(s, a)) && Extends(s, Apply(s, a))
  {
    hide JobKey, JobName;
    match a
    case Begin(c) => BeginKeeps(s, c);
    case Register(id) => if id < |s.calls| { RegisterKeeps(s, id); }
    case Create(id, accepted) => if id < |s.calls| { CreateKeeps(s, id, accepted); }
    case Finish(id, deleted) => if id < |s.calls| { FinishKeeps(s, id, deleted); }
    case Fetch(id, sawJob) => if id < |s.calls| { FetchKeeps(s, id, sawJob); }
    case Spawn(_, _) => FilesCarry(s, Apply(s, a));
    case Deliver(_, _) => FilesCarry(s, Apply(s, a));
  }

  lemma {:induction false} RunKeeps(s: State, acts: seq<Action>)
    requires Inv(s)
    ensures Inv(Run(s, acts)) && Extends(s, Run(s, acts))
    decreases |acts|
  {
    hide Apply, Inv;
    if acts == [] {
    } else {
      ApplyKeeps(s, acts[0]);
      RunKeeps(Apply(s, acts[0]), acts[1..]);
    }
  }

  predicate SameJob(c: Call, d: Call) {
    NamespaceOf(c) == NamespaceOf(d) && c.prefix == d.prefix && c.second == d.second
  }

  /** Calls that share namespace, prefix and second have no callback. */
  predicate Separate(calls: seq<Call>) {
    forall i, j :: 0 <= i < |calls| && 0 <= j < |calls| && i != j && SameJob(calls[i], calls[j]) ==>
      !calls[i].hasCallback && !calls[j].hasCallback
  }

  /** Namespaces are DNS labels, which hold no slash. */
  predicate SlashFree(calls: seq<Call>) {
    forall i :: 0 <= i < |calls| ==> Free(NamespaceOf(calls[i]), '/')
  }

  function CallsOf(s: State): (cs: seq<Call>)
    ensures |cs| == |s.calls| && forall i :: 0 <= i < |cs| ==> cs[i] == s.calls[i].call
  {
    seq(|s.calls|, i requires 0 <= i < |s.calls| => s.calls[i].call)
  }

  /** Every delivery went to the callback of the call whose job the pod belongs to. */
  predicate OwnLogsOnly(s: State) {
    forall d :: d in s.delivered ==> d.callback == d.pod.creator
  }

  lemma KeysSeparateCalls(s: State, i: nat, j: nat)
    requires SlashFree(CallsOf(s)) && i < |s.calls| && j < |s.calls|
    requires KeyOf(s.calls[i].call) == KeyOf(s.calls[j].call)
    ensures SameJob(s.calls[i].call, s.calls[j].call)
  {
    var c, d := s.calls[i].call, s.calls[j].call;
    JobKeyInjective(NamespaceOf(c), NameOf(c), NamespaceOf(d), NameOf(d));
    JobNameInjective(c.prefix, c.second, d.prefix, d.second);
  }

  /** In every interleaving of calls that keep apart, a callback receives only logs of the job its
      own call created. */
  lemma CallbacksReceiveTheirOwnLogs(acts: seq<Action>)
    requires Separate(CallsOf(Run(EMPTY, acts))) && SlashFree(CallsOf(Run(EMPTY, acts)))
    ensures OwnLogsOnly(Run(EMPTY, acts))
  {
    hide Run, JobKey, JobName;
    RunKeeps(EMPTY, acts);
    var s := Run(EMPTY, acts);
    forall d | d in s.delivered ensures d.callback == d.pod.creator {
      assert WellDelivered(s, d);
      KeysSeparateCalls(s, d.callback, d.pod.creator);
      assert CallsOf(s)[d.callback].hasCallback;
    }
  }

  /** Calls that keep apart are exactly those that no interleaving can confuse. */
  lemma ConfusionExactly(calls: seq<Call>)
    requires SlashFree(calls)
    ensures (forall acts :: CallsOf(Run(EMPTY, acts)) == calls ==> OwnLogsOnly(Run(EMPTY, acts))) <==> Separate(calls)
  {
    hide Run, OwnLogsOnly, SlashFree, NamespaceOf;
    if Separate(calls) {
      forall acts | CallsOf(Run(EMPTY, acts)) == calls ensures OwnLogsOnly(Run(EMPTY, acts)) {
        CallbacksReceiveTheirOwnLogs(acts);
      }
    } else {
      var i, j :| 0 <= i < |calls| && 0 <= j < |calls| && i != j && SameJob(calls[i], calls[j])
                  && (calls[i].hasCallback || calls[j].hasCallback);
      if calls[j].hasCallback { LeftOverMisleads(calls, i, j); } else { LeftOverMisleads(calls, j, i); }
    }
  }

  // ---------------------------------------------------------------- a pod left over

  function Begins(calls: seq<Call>): seq<Action> {
    seq(|calls|, i requires 0 <= i < |calls| => Begin(calls[i]))
  }

  function AllNamed(calls: seq<Call>): seq<Entry> {
    seq(|calls|, i requires 0 <= i < |calls| => Entry(calls[i], Named))
  }

  lemma {:induction false} AllBegun(calls: seq<Call>, n: nat)
    requires n <= |calls|
    ensures Run(EMPTY, Begins(calls)[..n]) == EMPTY.(calls := AllNamed(calls)[..n])
  {
    if n == 0 {
    } else {
      AllBegun(calls, n - 1);
      var s := Run(EMPTY, Begins(calls)[..n - 1]);
      assert Begins(calls)[..n] == Begins(calls)[..n - 1] + [Begin(calls[n - 1])];
      RunAppend(EMPTY, Begins(calls)[..n - 1], [Begin(calls[n - 1])]);
      RunOne(s, Begin(calls[n - 1]));
      assert AllNamed(calls)[..n] == AllNamed(calls)[..n - 1] + [Entry(calls[n - 1], Named)];
    }
  }

  lemma RunOne(s: State, a: Action)
    ensures Run(s, [a]) == Apply(s, a)
  {
    hide Apply;
    assert [a][1..] == [] && Run(Apply(s, a), []) == Apply(s, a);
  }

  /** Call `i` runs to its end and leaves a pod; call `j`, with a callback, finds it among its own. */
  function LeftOver(calls: seq<Call>, i: nat, j: nat): seq<Action>
    requires i < |calls| && j < |calls|
  {
    Begins(calls) + (FirstCall(calls, i) + SecondCall(j))
  }

  function FirstCall(calls: seq<Call>, i: nat): seq<Action>
    requires i < |calls|
  {
    [Register(i), Create(i, true)] + ([Spawn(JobOf(calls[i]).0, JobOf(calls[i]).1)] + [Finish(i, true)])
  }

  function SecondCall(j: nat): seq<Action> {
    [Register(j), Create(j, true)] + [Fetch(j, true), Deliver(j, 0)]
  }

  lemma FirstCallRuns(calls: seq<Call>, i: nat) returns (t: State)
    requires i < |calls|
    ensures t == Run(EMPTY.(calls := AllNamed(calls)), FirstCall(calls, i))
    ensures t.jobs == map[] && t.delivered == [] && t.pods == [Pod(JobOf(calls[i]).0, JobOf(calls[i]).1, i)]
    ensures t.calls == AllNamed(calls)[i := Entry(calls[i], Finished)]
  {
    hide JobKey, JobName;
    var c, job := calls[i], JobOf(calls[i]);
    var s := EMPTY.(calls := AllNamed(calls));
    var r := Apply(s, Register(i));
    var u := Apply(r, Create(i, true));
    assert u.calls == AllNamed(calls)[i := Entry(c, Running)];
    assert u.jobs == map[job := i] && u.pods == [] && u.delivered == [];
    var v := Apply(u, Spawn(job.0, job.1));
    t := Apply(v, Finish(i, true));
    hide Run;
    RunPair(s, Register(i), Create(i, true));
    RunAppend(s, [Register(i), Create(i, true)], [Spawn(job.0, job.1)] + [Finish(i, true)]);
    RunAppend(u, [Spawn(job.0, job.1)], [Finish(i, true)]);
    RunOne(u, Spawn(job.0, job.1));
    RunOne(v, Finish(i, true));
    assert t.calls == AllNamed(calls)[i := Entry(c, Finished)];
    assert t.jobs == map[];
  }

  lemma SecondCallRuns(calls: seq<Call>, i: nat, j: nat, s: State) returns (t: State)
    requires i < |calls| && j < |calls| && i != j && JobOf(calls[i]) == JobOf(calls[j]) && calls[j].hasCallback
    requires s.jobs == map[] && s.delivered == [] && s.pods == [Pod(JobOf(calls[i]).0, JobOf(calls[i]).1, i)]
    requires s.calls == AllNamed(calls)[i := Entry(calls[i], Finished)]
    ensures t == Run(s, SecondCall(j))
    ensures t.delivered == [Delivery(j, s.pods[0])]
    ensures t.calls == s.calls[j := Entry(calls[j], Watching(Some(j)))]
  {
    hide JobKey, JobName;
    var r := Apply(s, Register(j));
    var u := Apply(r, Create(j, true));
    assert u.calls == s.calls[j := Entry(calls[j], Running)];
    assert u.registry == s.registry[KeyOf(calls[j]) := j] && u.jobs == map[JobOf(calls[j]) := j];
    var v := Apply(u, Fetch(j, true));
    assert v.calls == s.calls[j := Entry(calls[j], Watching(Some(j)))];
    t := Apply(v, Deliver(j, 0));
    hide Run;
    RunPair(s, Register(j), Create(j, true));
    RunAppend(s, [Register(j), Create(j, true)], [Fetch(j, true), Deliver(j, 0)]);
    RunPair(u, Fetch(j, true), Deliver(j, 0));
  }

  lemma LeftOverMisleads(calls: seq<Call>, i: nat, j: nat)
    requires i < |calls| && j < |calls| && i != j && SameJob(calls[i], calls[j]) && calls[j].hasCallback
    ensures var t := Run(EMPTY, LeftOver(calls, i, j)); CallsOf(t) == calls && !OwnLogsOnly(t)
  {
    assert JobOf(calls[i]) == JobOf(calls[j]) by { hide JobName; }
    hide Run, JobOf, AllNamed;
    AllBegun(calls, |calls|);
    assert Begins(calls)[..|calls|] == Begins(calls);
    assert AllNamed(calls)[..|calls|] == AllNamed(calls) by { NamedCalls(calls); }
    var s := FirstCallRuns(calls, i);
    var t := SecondCallRuns(calls, i, j, s);
    RunAppend(EMPTY, Begins(calls), FirstCall(calls, i) + SecondCall(j));
    RunAppend(EMPTY.(calls := AllNamed(calls)), FirstCall(calls, i), SecondCall(j));
    NamedCalls(calls);
    assert t.delivered[0] in t.delivered;
  }

  lemma NamedCalls(calls: seq<Call>)
    ensures |AllNamed(calls)| == |calls| && forall k :: 0 <= k < |calls| ==> AllNamed(calls)[k].call == calls[k]
  {
  }

  /** Two calls with callbacks can also be confused while both are under way: the second replaces the
      first in the registry, fails to create its job, and is handed the output of the first. */
  lemma SharedSecondMisdelivers(c: Call)
    requires c.hasCallback
    ensures var s := Run(EMPTY, [Begin(c), Begin(c), Register(0), Create(0, true), Register(1), Create(1, true),
                                 Spawn(NamespaceOf(c), NameOf(c)), Fetch(0, true), Deliver(0, 0)]);
            && s.delivered == [Delivery(1, Pod(NamespaceOf(c), NameOf(c), 0))]
            && |s.calls| == 2 && s.calls[1].phase == Failed && KeyOf(c) in s.registry
  {
    hide JobKey, JobName, Run;
    var key, job := KeyOf(c), JobOf(c);
    var s2 := State([Entry(c, Named), Entry(c, Named)], map[], map[], [], []);
    var s4 := State([Entry(c, Running), Entry(c, Named)], map[key := 0], map[job := 0], [], []);
    var s6 := State([Entry(c, Running), Entry(c, Failed)], map[key := 1], map[job := 0], [], []);
    var first, second, third := [Begin(c), Begin(c)], [Register(0), Create(0, true)], [Register(1), Create(1, true)];
    var last := [Spawn(job.0, job.1), Fetch(0, true), Deliver(0, 0)];
    RunPair(EMPTY, Begin(c), Begin(c));
    assert Apply(Apply(EMPTY, Begin(c)), Begin(c)) == s2;
    RunPair(s2, Register(0), Create(0, true));
    assert Apply(Apply(s2, Register(0)), Create(0, true)) == s4;
    RunPair(s4, Register(1), Create(1, true));
    assert Apply(Apply(s4, Register(1)), Create(1, true)) == s6;
    RunAppend(EMPTY, first, second + (third + last));
    RunAppend(s2, second, third + last);
    RunAppend(s4, third, last);
    WrongCallbackRuns(c);
    assert first + (second + (third + last))
        == [Begin(c), Begin(c), Register(0), Create(0, true), Register(1), Create(1, true),
            Spawn(job.0, job.1), Fetch(0, true), Deliver(0, 0)];
  }

  /** The last three steps: a pod of the first call, and the lookup that finds the second callback. */
  lemma WrongCallbackRuns(c: Call)
    requires c.hasCallback
    ensures var key, job := KeyOf(c), JobOf(c); var pod := Pod(job.0, job.1, 0);
            Run(State([Entry(c, Running), Entry(c, Failed)], map[key := 1], map[job := 0], [], []),
                [Spawn(job.0, job.1), Fetch(0, true), Deliver(0, 0)])
            == State([Entry(c, Watching(Some(1))), Entry(c, Failed)], map[key := 1], map[job := 0], [pod],
                     [Delivery(1, pod)])
  {
    hide JobKey, JobName;
    var key, job := KeyOf(c), JobOf(c);
    var pod := Pod(job.0, job.1, 0);
    var s6 := State([Entry(c, Running), Entry(c, Failed)], map[key := 1], map[job := 0], [], []);
    var s7 := s6.(pods := [pod]);
    var s8 := s7.(calls := [Entry(c, Watching(Some(1))), Entry(c, Failed)]);
    var last := [Spawn(job.0, job.1), Fetch(0, true), Deliver(0, 0)];
    assert Apply(s6, last[0]) == s7;
    assert Apply(s7, last[1]) == s8;
    assert last[1..] == [last[1], last[2]] && last[1..][1..] == [last[2]];
    assert Run(s8, [last[2]]) == Apply(s8, last[2]);
  }

  lemma RunPair(s: State, a: Action, b: Action)
    ensures Run(s, [a, b]) == Apply(Apply(s, a), b)
  {
    hide Apply;
    assert [a, b][1..] == [b] && [b][1..] == [];
    assert Run(Apply(s, a), [b]) == Run(Apply(Apply(s, a), b), []);
  }

  lemma {:induction false} RunAppend(s: State, first: seq<Action>, rest: seq<Action>)
    ensures Run(s, first + rest) == Run(Run(s, first), rest)
    decreases |first|
  {
    hide Apply;
    if first == [] {
      assert first + rest == rest;
    } else {
      assert (first + rest)[1..] == first[1..] + rest;
      RunAppend(Apply(s, first[0]), first[1..], rest);
    }
  }

  /** The registry is never cleaned: an entry outlives its call and its job. */
  lemma {:induction false} EntriesStay(s: State, acts: seq<Action>, key: string)
    requires key in s.registry
    ensures key in Run(s, acts).registry
    decreases |acts|
  {
    if acts == [] {
    } else {
      EntriesStay(Apply(s, acts[0]), acts[1..], key);
    }
  }

  // ---------------------------------------------------------------- the right callback is found

  /** No other call has the same job. */
  predicate OnlyOne(s: State, id: nat)
    requires id < |s.calls|
  {
    forall j :: 0 <= j < |s.calls| && j != id ==> JobOf(s.calls[j].call) != JobOf(s.calls[id].call)
  }

  /** A call that has got past naming its job is filed, and one that waits has its job. */
  predicate Filed(s: State) {
    && (forall i :: 0 <= i < |s.calls| && s.calls[i].call.hasCallback && s.calls[i].phase != Named ==>
          KeyOf(s.calls[i].call) in s.registry)
    && (forall i :: 0 <= i < |s.calls| && s.calls[i].phase == Running && OnlyOne(s, i) ==>
          JobOf(s.calls[i].call) in s.jobs)
  }

  lemma OnlyOneBefore(s: State, t: State, i: nat)
    requires Extends(s, t) && i < |s.calls| && OnlyOne(t, i)
    ensures OnlyOne(s, i)
  {
    hide JobName;
  }

  lemma FiledStep(s: State, a: Action)
    requires Filed(s) && Extends(s, Apply(s, a))
    ensures Filed(Apply(s, a))
  {
    hide JobKey, JobName, Lookup, OnlyOne, NamespaceOf;
    var t := Apply(s, a);
    forall i | 0 <= i < |t.calls| && t.calls[i].phase == Running && OnlyOne(t, i)
      ensures JobOf(t.calls[i].call) in t.jobs
    {
      if i < |s.calls| {
        OnlyOneBefore(s, t, i);
        if a.Finish? && a.id < |s.calls| && a.id != i { Differ(t, i, a.id); }
      }
    }
  }

  lemma Differ(s: State, i: nat, j: nat)
    requires i < |s.calls| && j < |s.calls| && i != j && OnlyOne(s, i)
    ensures JobOf(s.calls[i].call) != JobOf(s.calls[j].call)
  {
    hide JobName;
  }

  lemma {:induction false} FiledRun(s: State, acts: seq<Action>)
    requires Inv(s) && Filed(s)
    ensures Inv(Run(s, acts)) && Filed(Run(s, acts))
    decreases |acts|
  {
    hide Inv, Filed, Apply;
    if acts != [] {
      ApplyKeeps(s, acts[0]);
      FiledStep(s, acts[0]);
      FiledRun(Apply(s, acts[0]), acts[1..]);
    }
  }

  /** Among calls that keep apart, one that sees its job finds its own callback, which then gets the
      log of every pod of that job. */
  lemma EachCallHearsItself(acts: seq<Action>, id: nat, pod: nat)
    requires var s := Run(EMPTY, acts);
             && Separate(CallsOf(s)) && SlashFree(CallsOf(s)) && At(s, id, Running) && s.calls[id].call.hasCallback
    ensures var s := Run(EMPTY, acts); var t := Apply(s, Fetch(id, true));
            && At(t, id, Watching(Some(id)))
            && (pod < |s.pods| && (s.pods[pod].namespace, s.pods[pod].jobName) == JobOf(s.calls[id].call) ==>
                  Apply(t, Deliver(id, pod)).delivered == s.delivered + [Delivery(id, s.pods[pod])])
  {
    hide Run, JobKey, JobName;
    var s := Run(EMPTY, acts);
    FiledRun(EMPTY, acts);
    OwnEntries(s, id);
    FetchFinds(s, id, pod);
    hide *;
  }

  lemma FetchFinds(s: State, id: nat, pod: nat)
    requires At(s, id, Running) && s.calls[id].call.hasCallback
    requires var c := s.calls[id].call;
             && KeyOf(c) in s.registry && s.registry[KeyOf(c)] == id
             && JobOf(c) in s.jobs && s.jobs[JobOf(c)] == id
    ensures var t := Apply(s, Fetch(id, true));
            && At(t, id, Watching(Some(id)))
            && (pod < |s.pods| && (s.pods[pod].namespace, s.pods[pod].jobName) == JobOf(s.calls[id].call) ==>
                  Apply(t, Deliver(id, pod)).delivered == s.delivered + [Delivery(id, s.pods[pod])])
  {
    hide JobKey, JobName, NamespaceOf;
  }

  lemma OwnEntries(s: State, id: nat)
    requires Inv(s) && Filed(s) && Separate(CallsOf(s)) && SlashFree(CallsOf(s))
    requires At(s, id, Running) && s.calls[id].call.hasCallback
    ensures var c := s.calls[id].call;
            && KeyOf(c) in s.registry && s.registry[KeyOf(c)] == id
            && JobOf(c) in s.jobs && s.jobs[JobOf(c)] == id
  {
    hide JobKey, JobName, Owned, WellDelivered, Watched;
    var c := s.calls[id].call;
    forall j | 0 <= j < |s.calls| && j != id ensures KeyOf(s.calls[j].call) != KeyOf(c) { ApartInKey(s, j, id); }
    assert forall j :: 0 <= j < |s.calls| && j != id ==> JobOf(s.calls[j].call) != JobOf(c);
    assert OnlyOne(s, id);
  }

  lemma ApartInKey(s: State, j: nat, id: nat)
    requires Separate(CallsOf(s)) && SlashFree(CallsOf(s))
    requires j < |s.calls| && id < |s.calls| && j != id && s.calls[id].call.hasCallback
    ensures KeyOf(s.calls[j].call) != KeyOf(s.calls[id].call)
  {
    hide KeyOf, SameJob, SlashFree;
    assert CallsOf(s)[j] == s.calls[j].call && CallsOf(s)[id] == s.calls[id].call;
    if KeyOf(s.calls[j].call) == KeyOf(s.calls[id].call) { KeysSeparateCalls(s, j, id); }
  }
}
