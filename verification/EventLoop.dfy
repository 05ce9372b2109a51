/** The event loop at the level of single steps: `Reconcile` and the periodic syncer overlap, read
    from caches that may lag behind, conflict, fail and crash. How often the copies are written, when
    they agree, and when they stay in agreement. */
module EventLoop {
  import opened Prelude
  import opened Json
  import opened ConfigFile
  import opened Copies
  import opened Protocol

  /** Only `Reconcile` and `SyncConfig` are begun. */
  predicate OfLoop(a: Action) {
    a.Begin? ==> a.op.Reconcile? || a.op.SyncConfig?
  }

  predicate ByLoop(acts: seq<Action>) {
    forall i :: 0 <= i < |acts| ==> OfLoop(acts[i])
  }

  lemma ByLoopRest(acts: seq<Action>)
    requires ByLoop(acts) && acts != []
    ensures OfLoop(acts[0]) && ByLoop(acts[1..])
  {
    forall i | 0 <= i < |acts[1..]| ensures OfLoop(acts[1..][i]) { assert acts[1..][i] == acts[i + 1]; }
  }

  /** The text the syncer makes of the file. */
  function Text(w: World): Option<Json> {
    match ReadConfig(w.file)
    case None => None
    case Some(c) => Some(Marshal(c))
  }

  /** The text `Reconcile` makes of a resource. */
  function Target(cr: ClusterConfig): Json {
    Marshal(MapFromClusterConfig(cr.spec))
  }

  /** What an operation in flight holds was read from a committed version. */
  predicate SaneLocal(w: World, l: Local) {
    match l
    case RecGet => true
    case RecChoose(cr, rv) => rv < |w.versions| && w.versions[rv] == cr
    case RecUpdate(cr, rv) => rv < |w.versions| && FromFile(w.versions[rv]) && !FromFile(cr)
    case RecFillTmp(cr) => cr in w.versions && !FromFile(cr)
    case RecRename(cr) => cr in w.versions && !FromFile(cr) && w.tmp.Some? && w.tmp.value.content == Whole(Target(cr))
    case _ => InSyncer(l)
  }

  /** A readable file and only the loop's own operations in flight. */
  predicate Sane(s: State) {
    && ReadConfig(s.w.file).Some?
    && OneReconcile(s.procs)
    && forall p :: p in s.procs ==> SaneLocal(s.w, s.procs[p])
  }

  // ---------------------------------------------------------------- one step

  /** A step of `Reconcile`: it adopts, replaces the file, or changes neither. */
  predicate ReconcileStep(w: World, l: Local, w': World, next: Option<Local>) {
    && w'.maps == w.maps && ReadConfig(w'.file).Some?
    && (next.Some? ==> SaneLocal(w', next.value) && (next.value.MapRead? || InReconcile(next.value)))
    && (if l.RecUpdate? && next.Some? then
          && next == Some(MapRead) && w'.file == w.file
          && w.versions != [] && FromFile(Last(w.versions)) && !FromFile(l.cr) && w'.versions == w.versions + [l.cr]
        else if l.RecRename? then
          && next == Some(MapRead) && w'.versions == w.versions && l.cr in w.versions && !FromFile(l.cr)
          && w'.file.Present? && w'.file.content == Whole(Target(l.cr)) && Text(w') == Some(Target(l.cr))
        else w'.versions == w.versions && w'.file == w.file && next != Some(MapRead))
  }

  lemma ReconcileSteps(w: World, l: Local, pick: nat)
    requires ReadConfig(w.file).Some? && SaneLocal(w, l) && InReconcile(l)
    ensures var (w', next) := Advance(w, l, pick); ReconcileStep(w, l, w', next)
  {
    hide Marshal, Unmarshal, MapToClusterConfig, MapFromClusterConfig;
    if l.RecRename? { UnmarshalAfterMarshal(MapFromClusterConfig(l.cr.spec)); }
    if l.RecChoose? { assert w.versions[l.rv] in w.versions; }
  }

  predicate Carries(l: Local) {
    l.MapGet? || l.MapPut?
  }

  /** A step of the syncer: it reads the file, or looks at the ConfigMap, or writes it when it
      differs; the new text is the one it read. */
  predicate SyncerStep(w: World, l: Local, w': World, next: Option<Local>) {
    && w' == w.(maps := w'.maps)
    && (l.MapRead? ==> w' == w && next.Some? && next.value.MapGet? && Some(next.value.data) == Text(w))
    && (l.MapGet? ==> w' == w && next.Some? && next.value.MapPut? && next.value.data == l.data)
    && (l.MapPut? ==> next.None? && (w' == w || Written(w, l, w')))
  }

  predicate Holds(maps: seq<ConfigMap>, data: Json) {
    maps != [] && CONFIG_KEY in Last(maps) && Last(maps)[CONFIG_KEY] == data
  }

  predicate Written(w: World, l: Local, w': World)
    requires l.MapPut?
  {
    && |w'.maps| == |w.maps| + 1 && Holds(w'.maps, l.data) && !Holds(w.maps, l.data)
    && (w.maps != [] ==> l.seen == Some(|w.maps| - 1))
  }

  lemma SyncerSteps(w: World, l: Local, pick: nat)
    requires ReadConfig(w.file).Some? && InSyncer(l)
    ensures var (w', next) := Advance(w, l, pick); SyncerStep(w, l, w', next)
  {
    hide Marshal, Unmarshal, AdvanceReconcile, AdvanceFileSync, AdvanceCrSync;
  }

  /** Holdings of the others survive a step. */
  lemma SaneStays(w: World, w': World, l: Local)
    requires SaneLocal(w, l) && w.versions <= w'.versions && (l.RecRename? ==> w'.tmp == w.tmp)
    ensures SaneLocal(w', l)
  {
    if l.RecFillTmp? || l.RecRename? {
      var i :| 0 <= i < |w.versions| && w.versions[i] == l.cr;
      assert w'.versions[i] == l.cr;
    }
  }

  /** What a step of either kind leaves to the others. */
  predicate LoopStep(w: World, l: Local, w': World, next: Option<Local>) {
    && w.versions <= w'.versions && ReadConfig(w'.file).Some?
    && (next.Some? ==> SaneLocal(w', next.value))
    && (!InReconcile(l) ==> w'.tmp == w.tmp)
    && (next.Some? && InReconcile(next.value) ==> InReconcile(l))
  }

  lemma LoopSteps(w: World, l: Local, pick: nat)
    requires ReadConfig(w.file).Some? && SaneLocal(w, l)
    ensures var (w', next) := Advance(w, l, pick); LoopStep(w, l, w', next)
  {
    hide Advance, Parse, Marshal, FromFile;
    if InReconcile(l) { ReconcileSteps(w, l, pick); } else { SyncerSteps(w, l, pick); }
  }

  lemma SaneStep(s: State, pid: nat, pick: nat)
    requires Sane(s) && pid in s.procs
    ensures Sane(Apply(s, Step(pid, pick)))
  {
    hide Advance, SaneLocal, ReadConfig;
    var l := s.procs[pid];
    var (w', next) := Advance(s.w, l, pick);
    var t := Apply(s, Step(pid, pick));
    LoopSteps(s.w, l, pick);
    forall p | p in t.procs ensures SaneLocal(t.w, t.procs[p]) {
      if p != pid {
        assert InReconcile(s.procs[p]) ==> !InReconcile(l);
        SaneStays(s.w, w', s.procs[p]);
      }
    }
  }

  lemma BeginIsSane(s: State, op: Operation)
    requires Start(s, op).Some? && (op.Reconcile? || op.SyncConfig?)
    ensures var l := Start(s, op).value;
            SaneLocal(s.w, l) && !Carries(l) && (InReconcile(l) ==> !ReconcileRunning(s.procs))
  {
  }

  lemma SaneBegin(s: State, pid: nat, op: Operation)
    requires Sane(s) && (op.Reconcile? || op.SyncConfig?)
    ensures Sane(Apply(s, Begin(pid, op)))
  {
    hide Start, SaneLocal, ReadConfig;
    if pid !in s.procs && Start(s, op).Some? {
      BeginIsSane(s, op);
      var t := Apply(s, Begin(pid, op));
      assert t == s.(procs := s.procs[pid := Start(s, op).value]);
      assert forall p :: p in s.procs ==> p in t.procs && t.procs[p] == s.procs[p];
      assert OneReconcile(t.procs);
    }
  }

  /** The loop's own actions keep the machine sane. */
  lemma SaneApply(s: State, a: Action)
    requires Sane(s) && OfLoop(a)
    ensures Sane(Apply(s, a))
  {
    hide Advance, Start, SaneLocal, Parse;
    match a
    case Step(pid, pick) => if pid in s.procs { SaneStep(s, pid, pick); }
    case Begin(pid, op) => SaneBegin(s, pid, op);
    case Fail(pid) => 
    case Tick(_) =>
      var t := Apply(s, a);
      forall p | p in s.procs ensures SaneLocal(t.w, s.procs[p]) { SaneStays(s.w, t.w, s.procs[p]); }
    case Crash =>
  }

  // ---------------------------------------------------------------- the budgets

  /** The update of the resource still to come. */
  function Adoptions(w: World): nat {
    if w.versions != [] && FromFile(Last(w.versions)) then 1 else 0
  }

  /** Every version marked "false" carries the spec of the current one. */
  predicate OneSpec(w: World) {
    forall i :: 0 <= i < |w.versions| && !FromFile(w.versions[i]) ==>
      !FromFile(Last(w.versions)) && w.versions[i].spec == Last(w.versions).spec
  }

  /** Changes of the file's text still to come. */
  function RewritesLeft(w: World): nat {
    if w.versions == [] then 0
    else if FromFile(Last(w.versions)) then 1
    else if Text(w) == Some(Target(Last(w.versions))) then 0 else 1
  }

  /** `Reconcile` calls that have yet to take effect before the file is the resource, written out. */
  function CommitsLeft(w: World): nat {
    if w.versions == [] then 0
    else if FromFile(Last(w.versions)) then 2
    else if FileCurrent(w) then 0 else 1
  }

  /** With this action a `Reconcile` takes effect: its update is accepted, or its file in place. */
  predicate Commits(s: State, a: Action) {
    && a.Step? && a.pid in s.procs && InReconcile(s.procs[a.pid])
    && Advance(s.w, s.procs[a.pid], a.pick).1 == Some(MapRead)
  }

  predicate Rewrites(s: State, a: Action) {
    Text(Apply(s, a).w) != Text(s.w)
  }

  function CommitsIn(s: State, acts: seq<Action>): nat
    decreases |acts|
  {
    if acts == [] then 0
    else (if Commits(s, acts[0]) then 1 else 0) + CommitsIn(Apply(s, acts[0]), acts[1..])
  }

  function RewritesIn(s: State, acts: seq<Action>): nat
    decreases |acts|
  {
    if acts == [] then 0
    else (if Rewrites(s, acts[0]) then 1 else 0) + RewritesIn(Apply(s, acts[0]), acts[1..])
  }

  /** The calls of the syncer in flight with a text that is not, or no longer, the file's. */
  function StaleSyncers(s: State): set<nat> {
    set p | p in s.procs && Carries(s.procs[p]) && Some(s.procs[p].data) != Text(s.w)
  }

  /** How many calls of the syncer had read the file when its text was changed under them. */
  function Overtaken(s: State, acts: seq<Action>): nat
    decreases |acts|
  {
    if acts == [] then 0
    else
      (if Rewrites(s, acts[0]) then |StaleSyncers(Apply(s, acts[0]))| else 0)
      + Overtaken(Apply(s, acts[0]), acts[1..])
  }

  predicate MapHoldsFile(w: World) {
    Text(w).Some? && Holds(w.maps, Text(w).value)
  }

  /** Writes of the ConfigMap that the calls in flight can still cause: a stale text each, and each
      time the right one after it. */
  function MapWritesOwed(s: State): nat {
    (if MapHoldsFile(s.w) then 0 else 1) + 2 * |StaleSyncers(s)|
  }

  lemma Smaller(a: set<nat>, b: set<nat>)
    requires a <= b
    ensures |a| <= |b|
  {
    if a != b {
      assert |b - a| + |a| == |b| by { assert (b - a) + a == b; }
    }
  }

  lemma OneSmaller(a: set<nat>, b: set<nat>, x: nat)
    requires a <= b - {x} && x in b
    ensures |a| < |b|
  {
    Smaller(a, b - {x});
  }

  lemma SyncerBudget(s: State, pid: nat, pick: nat)
    requires Sane(s) && pid in s.procs && InSyncer(s.procs[pid])
    ensures var t := Apply(s, Step(pid, pick));
            |t.w.maps| + MapWritesOwed(t) <= |s.w.maps| + MapWritesOwed(s) && Text(t.w) == Text(s.w)
  {
    hide Advance, SaneLocal, Parse, Marshal;
    var l := s.procs[pid];
    var t := Apply(s, Step(pid, pick));
    SyncerSteps(s.w, l, pick);
    assert Text(t.w) == Text(s.w);
    hide Text, ReadConfig, Holds;
    if l.MapPut? && pid in StaleSyncers(s) {
      assert StaleSyncers(t) <= StaleSyncers(s) - {pid};
      OneSmaller(StaleSyncers(t), StaleSyncers(s), pid);
    } else {
      assert StaleSyncers(t) <= StaleSyncers(s);
      Smaller(StaleSyncers(t), StaleSyncers(s));
    }
  }

  lemma ReconcileBudget(s: State, pid: nat, pick: nat)
    requires Sane(s) && pid in s.procs && InReconcile(s.procs[pid])
    ensures var t := Apply(s, Step(pid, pick));
            t.w.maps == s.w.maps && (Text(t.w) == Text(s.w) ==> MapWritesOwed(t) <= MapWritesOwed(s))
  {
    hide Advance, SaneLocal, Parse, Marshal, Text;
    var t := Apply(s, Step(pid, pick));
    ReconcileSteps(s.w, s.procs[pid], pick);
    if Text(t.w) == Text(s.w) {
      assert StaleSyncers(t) <= StaleSyncers(s);
      Smaller(StaleSyncers(t), StaleSyncers(s));
    }
  }

  lemma BeginBudget(s: State, pid: nat, op: Operation)
    requires op.Reconcile? || op.SyncConfig?
    ensures var t := Apply(s, Begin(pid, op)); t.w == s.w && MapWritesOwed(t) <= MapWritesOwed(s)
  {
    hide Start, Text;
    var t := Apply(s, Begin(pid, op));
    if pid !in s.procs && Start(s, op).Some? { BeginIsSane(s, op); }
    assert StaleSyncers(t) <= StaleSyncers(s);
    Smaller(StaleSyncers(t), StaleSyncers(s));
  }

  /** One action of the loop within the budget of ConfigMap writes. */
  lemma BudgetApply(s: State, a: Action)
    requires Sane(s) && OfLoop(a)
    ensures var t := Apply(s, a);
            |t.w.maps| + MapWritesOwed(t)
            <= |s.w.maps| + MapWritesOwed(s) + (if Rewrites(s, a) then 1 + 2 * |StaleSyncers(t)| else 0)
  {
    hide Advance, Start, SaneLocal, Parse;
    var t := Apply(s, a);
    match a
    case Step(pid, pick) =>
      if pid in s.procs {
        if InReconcile(s.procs[pid]) { ReconcileBudget(s, pid, pick); }
        else {
          SaneKind(s.w, s.procs[pid]);
          SyncerBudget(s, pid, pick);
        }
      }
    case Begin(pid, op) => BeginBudget(s, pid, op);
    case _ =>
      assert StaleSyncers(t) <= StaleSyncers(s);
      Smaller(StaleSyncers(t), StaleSyncers(s));
  }

  lemma SaneKind(w: World, l: Local)
    requires SaneLocal(w, l)
    ensures InReconcile(l) || InSyncer(l)
  {
  }

  /** One action of the loop within the other budgets. */
  predicate Progresses(s: State, a: Action, t: State) {
    && |t.w.versions| + Adoptions(t.w) <= |s.w.versions| + Adoptions(s.w)
    && |s.w.versions| <= |t.w.versions|
    && (OneSpec(s.w) ==>
          && OneSpec(t.w)
          && (if Rewrites(s, a) then 1 else 0) + RewritesLeft(t.w) <= RewritesLeft(s.w)
          && CommitsLeft(t.w) <= CommitsLeft(s.w)
          && (Commits(s, a) && CommitsLeft(s.w) > 0 ==> CommitsLeft(t.w) < CommitsLeft(s.w)))
  }

  lemma ReconcileProgress(s: State, pid: nat, pick: nat)
    requires Sane(s) && pid in s.procs && InReconcile(s.procs[pid])
    ensures Progresses(s, Step(pid, pick), Apply(s, Step(pid, pick)))
  {
    hide Advance, SaneLocal, Parse, Marshal, MapFromClusterConfig;
    var l := s.procs[pid];
    var (w', next) := Advance(s.w, l, pick);
    ReconcileSteps(s.w, l, pick);
    if l.RecRename? && OneSpec(s.w) {
      var i :| 0 <= i < |s.w.versions| && s.w.versions[i] == l.cr;
      assert l.cr.spec == Last(s.w.versions).spec;
      hide ReadConfig;
    }
  }

  lemma NoProgress(s: State, a: Action)
    requires var t := Apply(s, a); t.w.versions == s.w.versions && t.w.file == s.w.file
    requires !Commits(s, a)
    ensures Progresses(s, a, Apply(s, a))
  {
    SameForOthers(s.w, Apply(s, a).w);
    hide Apply, OneSpec, Adoptions, RewritesLeft, CommitsLeft, Commits, Parse;
  }

  lemma SyncerCommitsNothing(s: State, pid: nat, pick: nat)
    requires Sane(s) && pid in s.procs && InSyncer(s.procs[pid])
    ensures var t := Apply(s, Step(pid, pick));
            t.w.versions == s.w.versions && t.w.file == s.w.file && !Commits(s, Step(pid, pick))
  {
    hide Advance, SaneLocal, Parse;
    SyncerSteps(s.w, s.procs[pid], pick);
  }

  lemma ProgressApply(s: State, a: Action)
    requires Sane(s) && OfLoop(a)
    ensures Progresses(s, a, Apply(s, a))
  {
    hide Advance, Start, SaneLocal, Parse, Progresses;
    if a.Step? && a.pid in s.procs {
      if InReconcile(s.procs[a.pid]) {
        ReconcileProgress(s, a.pid, a.pick);
      } else {
        SaneKind(s.w, s.procs[a.pid]);
        SyncerCommitsNothing(s, a.pid, a.pick);
        NoProgress(s, a);
      }
    } else {
      NoProgress(s, a);
    }
  }

  lemma SameForOthers(w: World, w': World)
    requires w'.versions == w.versions && w'.file == w.file
    ensures OneSpec(w) ==> OneSpec(w')
    ensures Adoptions(w') == Adoptions(w) && RewritesLeft(w') == RewritesLeft(w) && CommitsLeft(w') == CommitsLeft(w)
  {
    hide FromFile, Parse, Marshal;
  }

  /** All budgets over a whole run. The bounds on updates and on writes of the ConfigMap hold from
      any start; the file is changed at most once, and settles, when the versions a cache may serve
      agree. */
  lemma {:induction false} LoopBudgets(s: State, acts: seq<Action>)
    requires Sane(s) && ByLoop(acts)
    ensures var t := Run(s, acts);
            && Sane(t) && |s.w.versions| <= |t.w.versions|
            && |t.w.versions| + Adoptions(t.w) <= |s.w.versions| + Adoptions(s.w)
            && |t.w.maps| + MapWritesOwed(t)
               <= |s.w.maps| + MapWritesOwed(s) + RewritesIn(s, acts) + 2 * Overtaken(s, acts)
            && (OneSpec(s.w) ==>
                  && OneSpec(t.w) && RewritesIn(s, acts) <= RewritesLeft(s.w)
                  && (CommitsIn(s, acts) >= CommitsLeft(s.w) ==> CommitsLeft(t.w) == 0))
    decreases |acts|
  {
    hide Sane, OneSpec, Apply, Adoptions, RewritesLeft, CommitsLeft, MapWritesOwed, Commits, Rewrites, OfLoop,
         StaleSyncers;
    if acts == [] {
    } else {
      ByLoopRest(acts);
      SaneApply(s, acts[0]);
      BudgetApply(s, acts[0]);
      ProgressApply(s, acts[0]);
      LoopBudgets(Apply(s, acts[0]), acts[1..]);
    }
  }

  // ---------------------------------------------------------------- staying in agreement

  /** A call in flight that can still write a text other than the file's: it has yet to look at the
      ConfigMap, or has looked at its current version. */
  predicate Rival(w: World, l: Local) {
    || (l.MapGet? && Some(l.data) != Text(w))
    || (l.MapPut? && Some(l.data) != Text(w) && l.seen.Some? && l.seen.value + 1 == |w.maps|)
  }

  predicate NoRivals(s: State) {
    forall p :: p in s.procs ==> !Rival(s.w, s.procs[p])
  }

  predicate Calm(s: State) {
    Sane(s) && Settled(s.w) && OneSpec(s.w) && NoRivals(s)
  }

  lemma SettledText(w: World)
    requires Settled(w)
    ensures Text(w) == Some(Target(Last(w.versions))) && MapHoldsFile(w)
  {
    hide Marshal, Unmarshal, MapFromClusterConfig;
    UnmarshalAfterMarshal(MapFromClusterConfig(Last(w.versions).spec));
  }

  lemma SameSettled(w: World, w': World)
    requires SameCopies(w', w)
    ensures Settled(w') == Settled(w) && OneSpec(w') == OneSpec(w) && Text(w') == Text(w)
    ensures forall l :: Rival(w', l) == Rival(w, l)
  {
    hide Parse, Marshal, FromFile, MapFromClusterConfig;
  }

  /** A step of a calm machine rewrites the file with what it holds, at most. */
  lemma CalmReconcile(s: State, pid: nat, pick: nat)
    requires Calm(s) && pid in s.procs && InReconcile(s.procs[pid])
    ensures var (w', next) := Advance(s.w, s.procs[pid], pick);
            SameCopies(w', s.w) && (next.Some? ==> !Carries(next.value))
  {
    hide Advance, SaneLocal, Parse, Marshal, MapFromClusterConfig;
    var l := s.procs[pid];
    ReconcileSteps(s.w, l, pick);
    if l.RecRename? {
      var i :| 0 <= i < |s.w.versions| && s.w.versions[i] == l.cr;
      assert l.cr.spec == Last(s.w.versions).spec;
    }
  }

  lemma CalmSyncer(s: State, pid: nat, pick: nat)
    requires Calm(s) && pid in s.procs && InSyncer(s.procs[pid])
    ensures var (w', next) := Advance(s.w, s.procs[pid], pick);
            w' == s.w && (next.Some? && Carries(next.value) ==> Some(next.value.data) == Text(s.w))
  {
    hide Advance, SaneLocal, Parse, Marshal, FromFile, OneSpec;
    SettledText(s.w);
    SyncerSteps(s.w, s.procs[pid], pick);
  }

  /** Calm is lost only by a new holding of another text. */
  predicate NewHoldings(s: State, t: State) {
    forall p :: p in t.procs ==>
      (p in s.procs && t.procs[p] == s.procs[p]) || !Carries(t.procs[p]) || Some(t.procs[p].data) == Text(s.w)
  }

  lemma CalmAgain(s: State, t: State)
    requires Calm(s) && Sane(t) && SameCopies(t.w, s.w) && NewHoldings(s, t)
    ensures Calm(t)
  {
    SameSettled(s.w, t.w);
    hide Sane, Settled, OneSpec, Text;
  }

  lemma StepHoldings(s: State, pid: nat, pick: nat)
    requires pid in s.procs
    ensures var (w', next) := Advance(s.w, s.procs[pid], pick); var t := Apply(s, Step(pid, pick));
            && t.w == w'
            && (next.None? || !Carries(next.value) || Some(next.value.data) == Text(s.w) ==> NewHoldings(s, t))
  {
    hide Advance, Text;
  }

  lemma CalmStep(s: State, pid: nat, pick: nat)
    requires Calm(s) && pid in s.procs
    ensures var t := Apply(s, Step(pid, pick)); Calm(t) && SameCopies(t.w, s.w)
  {
    var t := Apply(s, Step(pid, pick));
    assert Sane(s) && Settled(s.w) && SaneLocal(s.w, s.procs[pid]);
    SaneKind(s.w, s.procs[pid]);
    SettledFile(s.w);
    SaneStep(s, pid, pick);
    StepHoldings(s, pid, pick);
    hide Apply, Advance, Sane, Calm, Settled, NewHoldings, Text;
    if InReconcile(s.procs[pid]) { CalmReconcile(s, pid, pick); } else { CalmSyncer(s, pid, pick); }
    CalmAgain(s, t);
  }

  lemma SettledFile(w: World)
    requires Settled(w)
    ensures w.file.Present?
  {
  }

  lemma NothingNew(s: State, a: Action)
    requires OfLoop(a) && !(a.Step? && a.pid in s.procs)
    ensures var t := Apply(s, a); NewHoldings(s, t) && t.w == s.w.(clock := t.w.clock)
  {
    hide Advance, Start, Text;
    if a.Begin? && a.pid !in s.procs && Start(s, a.op).Some? { BeginIsSane(s, a.op); }
  }

  lemma CalmApply(s: State, a: Action)
    requires Calm(s) && OfLoop(a)
    ensures Calm(Apply(s, a)) && SameCopies(Apply(s, a).w, s.w)
  {
    SettledFile(s.w);
    SaneApply(s, a);
    if a.Step? && a.pid in s.procs {
      CalmStep(s, a.pid, a.pick);
    } else {
      NothingNew(s, a);
      hide Sane, Settled, OneSpec, NoRivals, Apply, NewHoldings, OfLoop;
      CalmAgain(s, Apply(s, a));
    }
  }

  lemma {:induction false} CalmStays(s: State, acts: seq<Action>)
    requires Calm(s) && ByLoop(acts)
    ensures SameCopies(Run(s, acts).w, s.w) && Settled(Run(s, acts).w)
    decreases |acts|
  {
    hide Sane, OneSpec, NoRivals, Settled, Apply, OfLoop;
    SettledFile(s.w);
    if acts == [] {
    } else {
      ByLoopRest(acts);
      CalmApply(s, acts[0]);
      CalmStays(Apply(s, acts[0]), acts[1..]);
    }
  }

  // ---------------------------------------------------------------- what disturbs it

  lemma NoActions(s: State)
    ensures ByLoop([]) && Run(s, []) == s
  {
  }

  lemma RunOne(s: State, a: Action)
    ensures Run(s, [a]) == Apply(s, a)
  {
    hide Apply;
    assert [a][1..] == [];
    assert Run(Apply(s, a), []) == Apply(s, a);
  }

  lemma RunMore(s: State, a: Action, rest: seq<Action>)
    ensures Run(s, [a] + rest) == Run(Apply(s, a), rest)
  {
    hide Apply;
    assert ([a] + rest)[1..] == rest;
  }

  lemma TargetInjective(a: ClusterConfig, b: ClusterConfig)
    requires Target(a) == Target(b)
    ensures a.spec == b.spec
  {
    MarshalInjective(MapFromClusterConfig(a.spec), MapFromClusterConfig(b.spec));
    hide MapFromClusterConfig, Marshal, MapToClusterConfig;
    assert MapToClusterConfig(MapFromClusterConfig(a.spec)) == a.spec;
    assert MapToClusterConfig(MapFromClusterConfig(b.spec)) == b.spec;
  }

  lemma PutDisturbs(s: State, pid: nat, pick: nat)
    requires pid in s.procs && s.procs[pid].MapPut? && Rival(s.w, s.procs[pid]) && MapHoldsFile(s.w)
    ensures !Settled(Run(s, [Step(pid, pick)]).w)
  {
    RunOne(s, Step(pid, pick));
    hide Marshal, Unmarshal, FromFile, MapFromClusterConfig, Parse, AdvanceReconcile, AdvanceFileSync,
         AdvanceCrSync, Run;
  }

  /** A rival writes its text over the current version, once it has looked at it. */
  lemma RivalDisturbs(s: State, pid: nat) returns (acts: seq<Action>)
    requires Settled(s.w) && pid in s.procs && Rival(s.w, s.procs[pid])
    ensures ByLoop(acts) && !Settled(Run(s, acts).w)
  {
    SettledText(s.w);
    var l := s.procs[pid];
    if l.MapPut? {
      hide Text, Settled, Run, Advance;
      acts := [Step(pid, 0)];
      PutDisturbs(s, pid, 0);
    } else {
      acts := LookDisturbs(s, pid);
    }
  }

  lemma LookDisturbs(s: State, pid: nat) returns (acts: seq<Action>)
    requires MapHoldsFile(s.w) && pid in s.procs && s.procs[pid].MapGet? && Rival(s.w, s.procs[pid])
    ensures ByLoop(acts) && !Settled(Run(s, acts).w)
  {
    hide Parse, Marshal, AdvanceReconcile, AdvanceFileSync, AdvanceCrSync;
    var k, l := |s.w.maps| - 1, s.procs[pid];
    var put := MapPut(l.data, Some(k));
    var t := State(s.w, s.procs[pid := put], s.torn);
    Stepped(s, pid, k, s.w, put);
    hide Text, Settled, Run, Advance, Apply;
    acts := [Step(pid, k)] + [Step(pid, 0)];
    PutDisturbs(t, pid, 0);
    RunMore(s, Step(pid, k), [Step(pid, 0)]);
  }

  /** A lagging cache hands an older spec to the next `Reconcile`. */
  lemma OldSpecDisturbs(s: State, i: nat) returns (acts: seq<Action>)
    requires i < |s.w.versions| && !FromFile(s.w.versions[i])
    requires s.w.versions[i].spec != Last(s.w.versions).spec
    ensures ByLoop(acts) && !Settled(Run(s, acts).w)
  {
    hide Run, Settled, FromFile;
    var rest := [Begin(0, Reconcile)] + ([Step(0, i)] + ([Step(0, 0)] + ([Step(0, 0)] + [Step(0, 0)])));
    acts := [Crash] + rest;
    var t := Apply(s, Crash);
    RunMore(s, Crash, rest);
    OldSpecWritten(t, s.w.versions[i], i);
  }

  lemma OldSpecWritten(s: State, cr: ClusterConfig, i: nat)
    requires s.procs == map[] && i < |s.w.versions| && cr == s.w.versions[i] && !FromFile(cr)
    requires cr.spec != Last(s.w.versions).spec
    ensures !Settled(Run(s, [Begin(0, Reconcile)] + ([Step(0, i)] + ([Step(0, 0)] + ([Step(0, 0)] + [Step(0, 0)])))).w)
  {
    var w := s.w;
    var text := Whole(Target(cr));
    var w1 := w.(tmp := Some(Draft(Torn(true), w.clock)));
    var w2 := w.(tmp := Some(Draft(text, w.clock)));
    var w3 := w.(file := Present(text, w.clock, w.nextInode, true), tmp := None, nextInode := w.nextInode + 1);
    OldSpecSteps(w, cr, i);
    if Target(cr) == Target(Last(w.versions)) {
      TargetInjective(cr, Last(w.versions));
      assert false;
    }
    LoopBegins(s);
    hide *;
    var s1 := State(w, map[0 := RecGet], s.torn);
    var s2 := State(w, s1.procs[0 := RecChoose(cr, i)], s.torn);
    var s3 := State(w1, s2.procs[0 := RecFillTmp(cr)], s.torn);
    var s4 := State(w2, s3.procs[0 := RecRename(cr)], s.torn);
    var s5 := State(w3, s4.procs[0 := MapRead], s.torn);
    Stepped(s1, 0, i, w, RecChoose(cr, i));
    Stepped(s2, 0, 0, w1, RecFillTmp(cr));
    Stepped(s3, 0, 0, w2, RecRename(cr));
    Stepped(s4, 0, 0, w3, MapRead);
    RunMore(s, Begin(0, Reconcile), [Step(0, i)] + ([Step(0, 0)] + ([Step(0, 0)] + [Step(0, 0)])));
    RunMore(s1, Step(0, i), [Step(0, 0)] + ([Step(0, 0)] + [Step(0, 0)]));
    RunMore(s2, Step(0, 0), [Step(0, 0)] + [Step(0, 0)]);
    RunMore(s3, Step(0, 0), [Step(0, 0)]);
    RunOne(s4, Step(0, 0));
    NotTheTarget(w3, cr);
  }

  lemma LoopBegins(s: State)
    requires s.procs == map[]
    ensures Apply(s, Begin(0, Reconcile)) == State(s.w, map[0 := RecGet], s.torn)
  {
  }

  lemma NotTheTarget(w: World, cr: ClusterConfig)
    requires w.versions != [] && w.file.Present? && w.file.content == Whole(Target(cr))
    requires Target(cr) != Target(Last(w.versions))
    ensures !Settled(w)
  {
    hide Marshal, MapFromClusterConfig, FromFile, MapCurrent;
  }

  lemma OldSpecSteps(w: World, cr: ClusterConfig, i: nat)
    requires i < |w.versions| && cr == w.versions[i] && !FromFile(cr)
    ensures var text := Whole(Target(cr));
            var w1 := w.(tmp := Some(Draft(Torn(true), w.clock)));
            var w2 := w.(tmp := Some(Draft(text, w.clock)));
            && Advance(w, RecGet, i) == (w, Some(RecChoose(cr, i)))
            && Advance(w, RecChoose(cr, i), 0) == (w1, Some(RecFillTmp(cr)))
            && Advance(w1, RecFillTmp(cr), 0) == (w2, Some(RecRename(cr)))
            && Advance(w2, RecRename(cr), 0)
               == (w.(file := Present(text, w.clock, w.nextInode, true), tmp := None, nextInode := w.nextInode + 1),
                   Some(MapRead))
  {
    hide Marshal, Unmarshal, FromFile, MapFromClusterConfig, Parse, AdvanceSyncer, AdvanceFileSync, AdvanceCrSync;
  }

  /** The copies agree for good, whatever the loop does next, if and only if they agree now, no
      older version marked "false" carries another spec, and no call in flight can still write
      another text. */
  lemma AgreementIsStable(s: State)
    requires Sane(s)
    ensures (forall acts :: ByLoop(acts) ==> Settled(Run(s, acts).w))
            <==> Settled(s.w) && OneSpec(s.w) && NoRivals(s)
    ensures Settled(s.w) && OneSpec(s.w) && NoRivals(s) ==>
              forall acts :: ByLoop(acts) ==> SameCopies(Run(s, acts).w, s.w)
  {
    hide Sane, Settled, Run, FromFile, Rival;
    if Settled(s.w) && OneSpec(s.w) && NoRivals(s) {
      forall acts | ByLoop(acts) ensures Settled(Run(s, acts).w) && SameCopies(Run(s, acts).w, s.w) {
        CalmStays(s, acts);
      }
    } else if !Settled(s.w) {
      NoActions(s);
    } else if !NoRivals(s) {
      var p :| p in s.procs && Rival(s.w, s.procs[p]);
      var acts := RivalDisturbs(s, p);
    } else {
      VersionsExist(s.w);
      var i :| 0 <= i < |s.w.versions| && !FromFile(s.w.versions[i]) && s.w.versions[i].spec != Last(s.w.versions).spec;
      var acts := OldSpecDisturbs(s, i);
    }
  }

  lemma VersionsExist(w: World)
    requires Settled(w)
    ensures w.versions != [] && !FromFile(Last(w.versions))
  {
  }

  // ---------------------------------------------------------------- the event loop

  /** Over every run of overlapping `Reconcile` and syncer calls that starts from a readable file with
      nothing in flight: one update of the resource at most; two writes of the ConfigMap, and two
      more for every call of the syncer that had already read the file when its text changed; after
      two `Reconcile` calls that took effect the file is the resource, written out, and all copies
      agree for good if and only if the ConfigMap holds the file and no call in flight can still
      write another text. */
  lemma EventLoopComesToRest(s: State, acts: seq<Action>)
    requires s.procs == map[] && ReadConfig(s.w.file).Some? && s.w.versions != [] && OneSpec(s.w) && ByLoop(acts)
    ensures var t := Run(s, acts);
            && |t.w.versions| <= |s.w.versions| + 1
            && |t.w.maps| <= |s.w.maps| + 2 + 2 * Overtaken(s, acts)
            && (CommitsIn(s, acts) >= 2 ==>
                  && FileCurrent(t.w)
                  && ((forall more :: ByLoop(more) ==> Settled(Run(t, more).w)) <==> MapCurrent(t.w) && NoRivals(t)))
  {
    assert Sane(s);
    var t := Run(s, acts);
    LoopBudgets(s, acts);
    hide *;
    LoopCounts(s, acts);
    AgreementIsStable(t);
    Remaining(t.w);
  }

  lemma LoopCounts(s: State, acts: seq<Action>)
    requires s.procs == map[] && Sane(s) && s.w.versions != [] && OneSpec(s.w) && ByLoop(acts)
    ensures var t := Run(s, acts);
            && |t.w.versions| <= |s.w.versions| + 1 && t.w.versions != []
            && |t.w.maps| <= |s.w.maps| + 2 + 2 * Overtaken(s, acts)
            && (CommitsIn(s, acts) >= 2 ==> CommitsLeft(t.w) == 0)
  {
    assert StaleSyncers(s) == {};
    hide *;
    LoopBudgets(s, acts);
    AtMostOne(s);
  }

  lemma AtMostOne(s: State)
    ensures RewritesLeft(s.w) <= 1 && Adoptions(s.w) <= 1 && CommitsLeft(s.w) <= 2
    ensures MapWritesOwed(s) <= 1 + 2 * |StaleSyncers(s)|
  {
    hide StaleSyncers, MapHoldsFile, FileCurrent, Text, FromFile;
  }

  lemma Remaining(w: World)
    requires w.versions != []
    ensures CommitsLeft(w) == 0 ==> FileCurrent(w)
    ensures FileCurrent(w) ==> (Settled(w) <==> MapCurrent(w))
  {
    hide FileCurrent, MapCurrent, FromFile;
  }

  /** What is then missing is brought about by the syncer's next call, when nobody interferes. */
  lemma NextSyncSettles(w: World)
    requires FileCurrent(w)
    ensures Settled(Alone(w, MapRead, 3)) && Alone(w, MapRead, 3).versions == w.versions
  {
    hide Marshal, Unmarshal, MapFromClusterConfig, Alone, FromFile, ConfigMapSynced;
    UnmarshalAfterMarshal(MapFromClusterConfig(Last(w.versions).spec));
    MapSyncAlone(w, 3);
    SyncProgress(w);
  }
}
