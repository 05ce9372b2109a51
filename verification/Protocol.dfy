/** The same operations interleaved: any number of them in flight at once, one API call or file
    operation at a time, with stale reads, update conflicts, failed calls and crashes. */
module Protocol {
  import opened Prelude
  import opened Json
  import opened ConfigFile
  import opened Copies
  import Api = ClusterApi

  /** Where an operation in flight stands, and what it holds. `Rec*` is `Reconcile` up to its call
      of `SyncConfig`, `Map*` is `SyncConfig`, `File*` is `SyncClusterConfig` and `Cr*` is
      `SyncK8sToConfigFile`. */
  datatype Local =
    | RecGet
    | RecChoose(cr: ClusterConfig, rv: nat)
    | RecUpdate(cr: ClusterConfig, rv: nat)
    | RecFillTmp(cr: ClusterConfig)
    | RecRename(cr: ClusterConfig)
    | MapRead
    | MapGet(data: Json)
    | MapPut(data: Json, seen: Option<nat>)
    | FileStat
    | FileRead(mtime: int)
    | FileGet(mtime: int, spec: Api.Spec, now: nat)
    | FilePut(cr: ClusterConfig, seen: Option<nat>)
    | CrStat(cr: ClusterConfig)
    | CrOpen(c: Config)
    | CrFill(c: Config, inode: nat)

  /** One step of an operation. `pick` is the version a read returns when it reads from a cache:
      any version committed so far, or none at all. */
  function Advance(w: World, l: Local, pick: nat): (World, Option<Local>) {
    if InReconcile(l) then AdvanceReconcile(w, l, pick)
    else if InSyncer(l) then AdvanceSyncer(w, l, pick)
    else if InFileSync(l) then AdvanceFileSync(w, l, pick)
    else AdvanceCrSync(w, l)
  }

  /** `Reconcile` before its call of `SyncConfig`; the controller runs one `Reconcile` at a time. */
  predicate InReconcile(l: Local) {
    l.RecGet? || l.RecChoose? || l.RecUpdate? || l.RecFillTmp? || l.RecRename?
  }

  predicate InSyncer(l: Local) {
    l.MapRead? || l.MapGet? || l.MapPut?
  }

  predicate InFileSync(l: Local) {
    l.FileStat? || l.FileRead? || l.FileGet? || l.FilePut?
  }

  /** Steps of `Reconcile`. */
  function AdvanceReconcile(w: World, l: Local, pick: nat): (World, Option<Local>) {
    match l
    case RecGet =>
      if pick < |w.versions| then (w, Some(RecChoose(w.versions[pick], pick))) else (w, None)
    case RecChoose(cr, rv) =>
      if FromFile(cr) then
        match ReadConfig(w.file)
        case None => (w, None)
        case Some(c) => (w, Some(RecUpdate(Adopted(cr, c, w.clock), rv)))
      else (w.(tmp := Some(Draft(Torn(true), w.clock))), Some(RecFillTmp(cr)))
    case RecUpdate(cr, rv) =>
      if rv + 1 == |w.versions| then (w.(versions := w.versions + [cr]), Some(MapRead)) else (w, None)
    case RecFillTmp(cr) =>
      (w.(tmp := Some(Draft(Whole(Marshal(MapFromClusterConfig(cr.spec))), w.clock))), Some(RecRename(cr)))
    case RecRename(_) =>
      if w.tmp.None? then (w, None)
      else (w.(file := Present(w.tmp.value.content, w.tmp.value.mtime, w.nextInode, true),
               tmp := None, nextInode := w.nextInode + 1), Some(MapRead))
    case _ => (w, None)
  }

  /** Steps of `SyncConfig`. */
  function AdvanceSyncer(w: World, l: Local, pick: nat): (World, Option<Local>) {
    match l
    case MapRead =>
      (match ReadConfig(w.file)
       case None => (w, None)
       case Some(c) => (w, Some(MapGet(Marshal(c)))))
    case MapGet(data) => (w, Some(MapPut(data, if pick < |w.maps| then Some(pick) else None)))
    case MapPut(data, None) =>
      (if w.maps == [] then w.(maps := [map[CONFIG_KEY := data]]) else w, None)
    case MapPut(data, Some(k)) =>
      if k >= |w.maps| || (CONFIG_KEY in w.maps[k] && w.maps[k][CONFIG_KEY] == data) then (w, None)
      else if k + 1 == |w.maps| then (w.(maps := w.maps + [w.maps[k][CONFIG_KEY := data]]), None)
      else (w, None)
    case _ => (w, None)
  }

  /** Steps of `SyncClusterConfig`. */
  function AdvanceFileSync(w: World, l: Local, pick: nat): (World, Option<Local>) {
    match l
    case FileStat =>
      if w.file.Absent? || w.file.content == Torn(true) then (w, None) else (w, Some(FileRead(w.file.mtime)))
    case FileRead(mtime) =>
      (match ReadConfig(w.file)
       case None => (w, None)
       case Some(c) =>
         if IsEmptyConfigFile(c) then (w, None)
         else (w, Some(FileGet(mtime, ConvertToClusterConfigSpec(c), w.clock))))
    case FileGet(mtime, spec, now) =>
      if pick >= |w.versions| then
        (w, Some(FilePut(ClusterConfig(spec, Annotated(map[], "true", now)), None)))
      else if NewerThanFile(w.versions[pick], mtime) then (w, None)
      else
        (w, Some(FilePut(ClusterConfig(spec, Annotated(w.versions[pick].annotations, "true", now)), Some(pick))))
    case FilePut(cr, None) => (if w.versions == [] then w.(versions := [cr]) else w, None)
    case FilePut(cr, Some(k)) =>
      (if k + 1 == |w.versions| then w.(versions := w.versions + [cr]) else w, None)
    case _ => (w, None)
  }

  /** Steps of `SyncK8sToConfigFile`. */
  function AdvanceCrSync(w: World, l: Local): (World, Option<Local>) {
    match l
    case CrStat(cr) =>
      if IsEmptyK8sConfig(cr.spec) then (w, None)
      else if w.file.Present? && NotNewerThanFile(cr, w.file.mtime) then (w, None)
      else
        var c := ConvertToConfig(cr.spec);
        if IsEmptyConfigStruct(c) then (w, None)
        else (if w.file.Present? then w.(file := w.file.(writable := true)) else w, Some(CrOpen(c)))
    case CrOpen(c) =>
      if w.file.Absent? then
        (w.(file := Present(Torn(true), w.clock, w.nextInode, true), nextInode := w.nextInode + 1),
         Some(CrFill(c, w.nextInode)))
      else
        (w.(file := w.file.(content := Torn(true), mtime := w.clock)), Some(CrFill(c, w.file.inode)))
    case CrFill(c, inode) =>
      (if w.file.Present? && w.file.inode == inode then
         w.(file := w.file.(content := Whole(Marshal(c)), mtime := w.clock))
       else w, None)
    case _ => (w, None)
  }

  // ---------------------------------------------------------------- one operation alone

  /** The newest version a read can return. */
  function Newest(w: World, l: Local): nat {
    if l.MapGet? then (if w.maps == [] then 0 else |w.maps| - 1)
    else (if w.versions == [] then 0 else |w.versions| - 1)
  }

  /** The operation run to its end without interruption on fresh reads; no operation takes more
      than eight steps. */
  function Alone(w: World, l: Local, steps: nat): World
    decreases steps
  {
    if steps == 0 then w
    else
      var (w', next) := Advance(w, l, Newest(w, l));
      match next
      case None => w'
      case Some(l') => Alone(w', l', steps - 1)
  }

  lemma OneStep(w: World, l: Local, w': World, l': Local, steps: nat)
    requires steps > 0 && Advance(w, l, Newest(w, l)) == (w', Some(l'))
    ensures Alone(w, l, steps) == Alone(w', l', steps - 1)
  {
    hide Advance;
  }

  lemma LastStep(w: World, l: Local, w': World, steps: nat)
    requires steps > 0 && Advance(w, l, Newest(w, l)) == (w', None)
    ensures Alone(w, l, steps) == w'
  {
    hide Advance;
  }

  /** `SyncConfig` alone. */
  lemma MapSyncAlone(w: World, steps: nat)
    requires steps >= 3
    ensures Alone(w, MapRead, steps) == ConfigMapSynced(w)
  {
    hide Marshal, Unmarshal;
    if ReadConfig(w.file).Some? {
      var data := Marshal(ReadConfig(w.file).value);
      var put := MapPut(data, if w.maps == [] then None else Some(|w.maps| - 1));
      assert Alone(w, MapRead, steps) == Alone(w, MapGet(data), steps - 1) == Alone(w, put, steps - 2);
    }
  }

  lemma ReadAlone(w: World, cr: ClusterConfig, c: Config)
    requires w.versions != [] && cr == Last(w.versions) && FromFile(cr) && ReadConfig(w.file) == Some(c)
    ensures Alone(w, RecChoose(cr, |w.versions| - 1), 7)
         == ConfigMapSynced(w.(versions := w.versions + [Adopted(cr, c, w.clock)]))
  {
    hide Marshal, Unmarshal, MapToClusterConfig, MapFromClusterConfig, ConfigMapSynced, ReadConfig;
    var rv := |w.versions| - 1;
    var adopted := Adopted(cr, c, w.clock);
    var w1 := w.(versions := w.versions + [adopted]);
    assert Alone(w, RecChoose(cr, rv), 7) == Alone(w, RecUpdate(adopted, rv), 6);
    assert Alone(w, RecUpdate(adopted, rv), 6) == Alone(w1, MapRead, 5);
    MapSyncAlone(w1, 5);
  }

  lemma WriteAlone(w: World, cr: ClusterConfig, rv: nat)
    requires !FromFile(cr)
    ensures Alone(w, RecChoose(cr, rv), 7) == ConfigMapSynced(Replaced(w, cr.spec))
  {
    hide Marshal, Unmarshal, MapToClusterConfig, MapFromClusterConfig, ConfigMapSynced, ReadConfig;
    var text := Whole(Marshal(MapFromClusterConfig(cr.spec)));
    var w1 := w.(tmp := Some(Draft(Torn(true), w.clock)));
    var w2 := w.(tmp := Some(Draft(text, w.clock)));
    hide Alone;
    OneStep(w, RecChoose(cr, rv), w1, RecFillTmp(cr), 7);
    OneStep(w1, RecFillTmp(cr), w2, RecRename(cr), 6);
    OneStep(w2, RecRename(cr), Replaced(w, cr.spec), MapRead, 5);
    MapSyncAlone(Replaced(w, cr.spec), 4);
  }

  /** `Reconcile` alone has the effect the sequential model gives it. */
  lemma ReconcileAlone(w: World)
    ensures Alone(w, RecGet, 8) == Reconciled(w)
  {
    hide Marshal, Unmarshal, MapToClusterConfig, MapFromClusterConfig, ConfigMapSynced;
    if w.versions != [] {
      var cr, rv := Last(w.versions), |w.versions| - 1;
      assert Alone(w, RecGet, 8) == Alone(w, RecChoose(cr, rv), 7);
      if !FromFile(cr) {
        WriteAlone(w, cr, rv);
      } else if ReadConfig(w.file).Some? {
        ReadAlone(w, cr, ReadConfig(w.file).value);
      }
    }
  }

  lemma FileCreateAlone(w: World, mtime: int, spec: Api.Spec)
    requires w.versions == []
    ensures Alone(w, FileGet(mtime, spec, w.clock), 2)
         == w.(versions := [ClusterConfig(spec, Annotated(map[], "true", w.clock))])
  {
    hide Marshal, Unmarshal, Annotated, NewerThanFile, Alone;
    var cr := ClusterConfig(spec, Annotated(map[], "true", w.clock));
    OneStep(w, FileGet(mtime, spec, w.clock), w, FilePut(cr, None), 2);
    LastStep(w, FilePut(cr, None), w.(versions := [cr]), 1);
  }

  lemma CommitAlone(w: World, cr: ClusterConfig, k: nat)
    requires k + 1 == |w.versions|
    ensures Alone(w, FilePut(cr, Some(k)), 1) == w.(versions := w.versions + [cr])
  {
  }

  lemma FileUpdateAlone(w: World, mtime: int, spec: Api.Spec, cr: ClusterConfig, k: nat)
    requires k + 1 == |w.versions| && cr == w.versions[k]
    ensures Alone(w, FileGet(mtime, spec, w.clock), 2)
         == if NewerThanFile(cr, mtime) then w
            else w.(versions := w.versions + [ClusterConfig(spec, Annotated(cr.annotations, "true", w.clock))])
  {
    hide Annotated, NewerThanFile, AdvanceReconcile, AdvanceSyncer, AdvanceCrSync;
    if !NewerThanFile(cr, mtime) {
      var put := FilePut(ClusterConfig(spec, Annotated(cr.annotations, "true", w.clock)), Some(k));
      CommitAlone(w, put.cr, k);
      assert Advance(w, FileGet(mtime, spec, w.clock), k) == (w, Some(put));
      hide Alone, Advance;
      OneStep(w, FileGet(mtime, spec, w.clock), w, put, 2);
    }
  }

  /** `SyncClusterConfig` alone. */
  lemma FileSyncAlone(w: World)
    ensures Alone(w, FileStat, 4) == FileSynced(w)
  {
    hide Marshal, Unmarshal, ConvertToClusterConfigSpec, Annotated, NewerThanFile, AdvanceReconcile, AdvanceSyncer,
         AdvanceCrSync;
    if w.file.Present? && w.file.content != Torn(true) {
      var mtime := w.file.mtime;
      OneStep(w, FileStat, w, FileRead(mtime), 4);
      if ReadConfig(w.file).Some? && !IsEmptyConfigFile(ReadConfig(w.file).value) {
        var spec := ConvertToClusterConfigSpec(ReadConfig(w.file).value);
        OneStep(w, FileRead(mtime), w, FileGet(mtime, spec, w.clock), 3);
        if w.versions == [] {
          FileCreateAlone(w, mtime, spec);
        } else {
          FileUpdateAlone(w, mtime, spec, Last(w.versions), |w.versions| - 1);
        }
        hide Alone, Advance;
      }
    }
  }

  /** `SyncK8sToConfigFile` alone. */
  lemma CrSyncAlone(w: World, cr: ClusterConfig)
    ensures Alone(w, CrStat(cr), 3) == CrSynced(w, cr)
  {
    hide Marshal, Unmarshal, ConvertToConfig, IsEmptyConfigStruct, AdvanceReconcile, AdvanceSyncer, AdvanceFileSync;
    var c := ConvertToConfig(cr.spec);
    if !IsEmptyK8sConfig(cr.spec) && !(w.file.Present? && NotNewerThanFile(cr, w.file.mtime))
       && !IsEmptyConfigStruct(c)
    {
      var w1 := if w.file.Present? then w.(file := w.file.(writable := true)) else w;
      assert Alone(w, CrStat(cr), 3) == Alone(w1, CrOpen(c), 2);
      var (w2, next) := Advance(w1, CrOpen(c), 0);
      assert Alone(w1, CrOpen(c), 2) == Alone(w2, next.value, 1);
    }
  }

  // ---------------------------------------------------------------- any number of operations

  /** `torn` records that an in-place write was cut short by an error or a crash. */
  datatype State = State(w: World, procs: map<nat, Local>, torn: bool)

  datatype Operation = Reconcile | SyncConfig | SyncClusterConfig | SyncK8sToConfigFile(version: nat)

  datatype Action =
    | Tick(seconds: nat)
    | Begin(pid: nat, op: Operation)
    | Step(pid: nat, pick: nat)
    | Fail(pid: nat)
    | Crash

  predicate ReconcileRunning(procs: map<nat, Local>) {
    exists p :: p in procs && InReconcile(procs[p])
  }

  /** Where an operation starts; `None` when it cannot start now. */
  function Start(s: State, op: Operation): Option<Local> {
    match op
    case Reconcile => if ReconcileRunning(s.procs) then None else Some(RecGet)
    case SyncConfig => Some(MapRead)
    case SyncClusterConfig => Some(FileStat)
    case SyncK8sToConfigFile(v) => if v < |s.w.versions| then Some(CrStat(s.w.versions[v])) else None
  }

  /** The effect of an action; one that is not possible changes nothing. A failed call ends its
      operation, a crash ends them all; what they did before stays done. */
  function Apply(s: State, a: Action): State {
    match a
    case Tick(n) => s.(w := s.w.(clock := s.w.clock + n))
    case Begin(pid, op) =>
      var l := Start(s, op);
      if pid in s.procs || l.None? then s else s.(procs := s.procs[pid := l.value])
    case Step(pid, pick) =>
      if pid !in s.procs then s
      else
        var (w', next) := Advance(s.w, s.procs[pid], pick);
        State(w', if next.Some? then s.procs[pid := next.value] else s.procs - {pid}, s.torn)
    case Fail(pid) =>
      if pid !in s.procs then s
      else State(s.w, s.procs - {pid}, s.torn || s.procs[pid].CrFill?)
    case Crash => State(s.w, map[], s.torn || exists p :: p in s.procs && s.procs[p].CrFill?)
  }

  function Run(s: State, acts: seq<Action>): State
    decreases |acts|
  {
    if acts == [] then s else Run(Apply(s, acts[0]), acts[1..])
  }

  lemma Stepped(s: State, pid: nat, pick: nat, w: World, l: Local)
    requires pid in s.procs && Advance(s.w, s.procs[pid], pick) == (w, Some(l))
    ensures Apply(s, Step(pid, pick)) == State(w, s.procs[pid := l], s.torn)
  {
    hide Advance;
  }

  // ---------------------------------------------------------------- the meaning of the file is kept

  /** Every committed version either carries the spec of the file and is marked "false", or is
      blank and stopped by the emptiness guard. */
  predicate GoodVersion(cr: ClusterConfig, meaning: Api.Spec) {
    if FromFile(cr) then IsEmptyK8sConfig(cr.spec) else cr.spec == meaning
  }

  predicate Means(c: Config, meaning: Api.Spec) {
    MapToClusterConfig(c) == meaning
  }

  predicate GoodMap(cm: ConfigMap, meaning: Api.Spec) {
    CONFIG_KEY in cm ==> Unmarshal(cm[CONFIG_KEY]).Some? && Means(Unmarshal(cm[CONFIG_KEY]).value, meaning)
  }

  predicate GoodWorld(w: World, meaning: Api.Spec) {
    && w.file.Present?
    && (if Parse(w.file.content).Some? then Means(Parse(w.file.content).value, meaning)
        else w.file.content == Torn(true))
    && (forall i :: 0 <= i < |w.versions| ==> GoodVersion(w.versions[i], meaning))
  }

  /** The versions of the ConfigMap written since the first `n` mean the same as the file. */
  predicate GoodMapsSince(w: World, n: nat, meaning: Api.Spec) {
    n <= |w.maps| && forall i :: n <= i < |w.maps| ==> GoodMap(w.maps[i], meaning)
  }

  /** What an operation in flight holds agrees with the meaning of the file. */
  predicate GoodLocal(w: World, l: Local, meaning: Api.Spec) {
    match l
    case RecChoose(cr, _) => GoodVersion(cr, meaning)
    case RecUpdate(cr, _) => !FromFile(cr) && cr.spec == meaning
    case RecFillTmp(cr) => cr.spec == meaning
    case RecRename(_) =>
      w.tmp.Some? && w.tmp.value.content == Whole(Marshal(MapFromClusterConfig(meaning)))
    case MapGet(data) => GoodMap(map[CONFIG_KEY := data], meaning)
    case MapPut(data, _) => GoodMap(map[CONFIG_KEY := data], meaning)
    case FileGet(_, spec, _) => IsEmptyK8sConfig(spec)
    case FilePut(cr, _) => FromFile(cr) && IsEmptyK8sConfig(cr.spec)
    case CrStat(cr) => GoodVersion(cr, meaning)
    case CrOpen(c) => c == MapFromClusterConfig(meaning)
    case CrFill(c, _) => c == MapFromClusterConfig(meaning)
    case _ => true
  }

  predicate OneReconcile(procs: map<nat, Local>) {
    forall p, q :: p in procs && q in procs && InReconcile(procs[p]) && InReconcile(procs[q]) ==> p == q
  }

  /** The file is whole unless an in-place write is under way on it or was cut short. */
  predicate Accounted(s: State) {
    s.w.file.Present? && Parse(s.w.file.content).None? ==>
      s.torn || exists p :: p in s.procs && s.procs[p].CrFill? && s.procs[p].inode == s.w.file.inode
  }

  predicate Inv(s: State, meaning: Api.Spec) {
    && GoodWorld(s.w, meaning)
    && OneReconcile(s.procs)
    && (forall p :: p in s.procs ==> GoodLocal(s.w, s.procs[p], meaning))
    && Accounted(s)
  }

  predicate Kept(w: World, l: Local, w': World, next: Option<Local>, meaning: Api.Spec) {
    && GoodWorld(w', meaning)
    && (next.Some? ==> GoodLocal(w', next.value, meaning))
    && (!InReconcile(l) ==> w'.tmp == w.tmp)
    && (next.Some? && InReconcile(next.value) ==> InReconcile(l))
  }

  lemma ReconcileStepKeeps(w: World, l: Local, pick: nat, meaning: Api.Spec)
    requires GoodWorld(w, meaning) && GoodLocal(w, l, meaning) && InReconcile(l)
    ensures var (w', next) := Advance(w, l, pick); Kept(w, l, w', next, meaning)
  {
    hide Marshal, Unmarshal, MapToClusterConfig, MapFromClusterConfig, IsEmptyK8sConfig;
    UnmarshalAfterMarshal(MapFromClusterConfig(meaning));
  }

  lemma MapStepKeeps(w: World, l: Local, pick: nat, meaning: Api.Spec)
    requires GoodWorld(w, meaning) && GoodLocal(w, l, meaning) && (l.MapRead? || l.MapGet? || l.MapPut?)
    ensures var (w', next) := Advance(w, l, pick); Kept(w, l, w', next, meaning)
  {
    hide Marshal, Unmarshal, MapToClusterConfig, MapFromClusterConfig, GoodVersion;
    if ReadConfig(w.file).Some? { UnmarshalAfterMarshal(ReadConfig(w.file).value); }
  }

  lemma FileStepKeeps(w: World, l: Local, pick: nat, meaning: Api.Spec)
    requires GoodWorld(w, meaning) && GoodLocal(w, l, meaning)
    requires l.FileStat? || l.FileRead? || l.FileGet? || l.FilePut?
    ensures var (w', next) := Advance(w, l, pick); Kept(w, l, w', next, meaning)
  {
    hide Parse, MapToClusterConfig, IsEmptyK8sConfig, ConvertToClusterConfigSpec, GoodMap;
    assert "true"[0] != "false"[0];
  }

  lemma CrStepKeeps(w: World, l: Local, pick: nat, meaning: Api.Spec)
    requires GoodWorld(w, meaning) && GoodLocal(w, l, meaning) && (l.CrStat? || l.CrOpen? || l.CrFill?)
    ensures var (w', next) := Advance(w, l, pick); Kept(w, l, w', next, meaning)
  {
    hide Marshal, Unmarshal, MapToClusterConfig, MapFromClusterConfig, IsEmptyConfigStruct, IsEmptyK8sConfig, GoodMap;
    UnmarshalAfterMarshal(MapFromClusterConfig(meaning));
  }

  /** One step of one operation keeps the world and its own holdings good. */
  lemma AdvanceKeeps(w: World, l: Local, pick: nat, meaning: Api.Spec)
    requires GoodWorld(w, meaning) && GoodLocal(w, l, meaning)
    ensures var (w', next) := Advance(w, l, pick); Kept(w, l, w', next, meaning)
  {
    hide Advance, GoodWorld, GoodLocal, Kept;
    if InReconcile(l) {
      ReconcileStepKeeps(w, l, pick, meaning);
    } else if l.MapRead? || l.MapGet? || l.MapPut? {
      MapStepKeeps(w, l, pick, meaning);
    } else if l.FileStat? || l.FileRead? || l.FileGet? || l.FilePut? {
      FileStepKeeps(w, l, pick, meaning);
    } else {
      CrStepKeeps(w, l, pick, meaning);
    }
  }

  /** Holdings depend on the world only through the temporary file. */
  lemma HoldingsStay(w: World, w': World, l: Local, meaning: Api.Spec)
    requires GoodLocal(w, l, meaning)
    requires l.RecRename? ==> w'.tmp == w.tmp
    ensures GoodLocal(w', l, meaning)
  {
  }

  /** A step leaves the file whole, or leaves it to the same in-place write as before, or is the
      start of one. */
  lemma AdvanceAccounts(w: World, l: Local, pick: nat, meaning: Api.Spec)
    requires GoodWorld(w, meaning) && GoodLocal(w, l, meaning)
    ensures var (w', next) := Advance(w, l, pick);
            w'.file.Present? && Parse(w'.file.content).None? ==>
              || (next.Some? && next.value.CrFill? && next.value.inode == w'.file.inode)
              || (w.file.Present? && w'.file.content == w.file.content && w'.file.inode == w.file.inode
                  && (l.CrFill? ==> l.inode != w.file.inode))
  {
    hide Marshal, Unmarshal, MapToClusterConfig, MapFromClusterConfig, IsEmptyConfigStruct;
    UnmarshalAfterMarshal(MapFromClusterConfig(meaning));
  }

  lemma StepKeeps(s: State, pid: nat, pick: nat, meaning: Api.Spec)
    requires Inv(s, meaning) && pid in s.procs
    ensures Inv(Apply(s, Step(pid, pick)), meaning)
  {
    hide Advance, GoodWorld, GoodLocal, Parse;
    var l := s.procs[pid];
    var (w', next) := Advance(s.w, l, pick);
    var t := Apply(s, Step(pid, pick));
    AdvanceKeeps(s.w, l, pick, meaning);
    forall p | p in t.procs ensures GoodLocal(t.w, t.procs[p], meaning) {
      if p != pid {
        assert InReconcile(s.procs[p]) ==> !InReconcile(l);
        HoldingsStay(s.w, w', s.procs[p], meaning);
      }
    }
    assert OneReconcile(t.procs);
    assert Accounted(t) by { StepAccounts(s, pid, pick, meaning); }
  }

  lemma StepAccounts(s: State, pid: nat, pick: nat, meaning: Api.Spec)
    requires Inv(s, meaning) && pid in s.procs
    ensures Accounted(Apply(s, Step(pid, pick)))
  {
    hide Advance, GoodLocal, Parse;
    var l := s.procs[pid];
    var t := Apply(s, Step(pid, pick));
    AdvanceAccounts(s.w, l, pick, meaning);
    if t.w.file.Present? && Parse(t.w.file.content).None? && !t.torn {
      if pid in t.procs && t.procs[pid].CrFill? && t.procs[pid].inode == t.w.file.inode {
      } else {
        var p :| p in s.procs && s.procs[p].CrFill? && s.procs[p].inode == s.w.file.inode;
        assert p != pid && p in t.procs && t.procs[p] == s.procs[p];
      }
    }
  }

  lemma StartIsGood(s: State, op: Operation, meaning: Api.Spec)
    requires GoodWorld(s.w, meaning) && Start(s, op).Some?
    ensures var l := Start(s, op).value;
            GoodLocal(s.w, l, meaning) && !l.CrFill? && (InReconcile(l) ==> !ReconcileRunning(s.procs))
  {
    hide Advance, Parse, GoodVersion, GoodMap;
  }

  lemma BeginKeeps(s: State, pid: nat, op: Operation, meaning: Api.Spec)
    requires Inv(s, meaning) && pid !in s.procs && Start(s, op).Some?
    ensures Inv(Apply(s, Begin(pid, op)), meaning)
  {
    hide Advance, Parse, Start, GoodWorld, GoodLocal;
    var l := Start(s, op).value;
    var t := Apply(s, Begin(pid, op));
    StartIsGood(s, op, meaning);
    assert t == s.(procs := s.procs[pid := l]);
    assert OneReconcile(t.procs);
    assert forall p :: p in s.procs ==> p in t.procs && t.procs[p] == s.procs[p];
  }

  lemma FailKeeps(s: State, pid: nat, meaning: Api.Spec)
    requires Inv(s, meaning) && pid in s.procs
    ensures Inv(Apply(s, Fail(pid)), meaning)
  {
    hide Advance, Parse, GoodWorld, GoodLocal;
    var t := Apply(s, Fail(pid));
    assert forall p :: p in s.procs && p != pid ==> p in t.procs && t.procs[p] == s.procs[p];
  }

  lemma ApplyKeeps(s: State, a: Action, meaning: Api.Spec)
    requires Inv(s, meaning)
    ensures Inv(Apply(s, a), meaning)
  {
    hide Advance, Parse, Start, IsEmptyK8sConfig, GoodVersion, GoodMap;
    match a
    case Step(pid, pick) => if pid in s.procs { StepKeeps(s, pid, pick, meaning); }
    case Begin(pid, op) => if pid !in s.procs && Start(s, op).Some? { BeginKeeps(s, pid, op, meaning); }
    case Fail(pid) => if pid in s.procs { FailKeeps(s, pid, meaning); }
    case Tick(_) =>
      forall p | p in s.procs ensures GoodLocal(Apply(s, a).w, s.procs[p], meaning) {
        HoldingsStay(s.w, Apply(s, a).w, s.procs[p], meaning);
      }
    case Crash =>
  }

  lemma {:induction false} RunKeeps(s: State, acts: seq<Action>, meaning: Api.Spec)
    requires Inv(s, meaning)
    ensures Inv(Run(s, acts), meaning)
    decreases |acts|
  {
    hide Inv, Apply;
    if acts == [] {
    } else {
      ApplyKeeps(s, acts[0], meaning);
      RunKeeps(Apply(s, acts[0]), acts[1..], meaning);
    }
  }

  /** A step writes into the ConfigMap only what means the same as the file. */
  lemma AdvanceKeepsMaps(w: World, l: Local, pick: nat, n: nat, meaning: Api.Spec)
    requires GoodLocal(w, l, meaning) && GoodMapsSince(w, n, meaning)
    ensures GoodMapsSince(Advance(w, l, pick).0, n, meaning)
  {
    hide Marshal, Unmarshal, MapToClusterConfig, MapFromClusterConfig, Parse, GoodVersion, Means, FromFile,
         AdvanceReconcile, AdvanceFileSync, AdvanceCrSync;
    OthersLeaveMaps(w, l, pick);
  }

  lemma OthersLeaveMaps(w: World, l: Local, pick: nat)
    ensures AdvanceReconcile(w, l, pick).0.maps == w.maps
    ensures AdvanceFileSync(w, l, pick).0.maps == w.maps
    ensures AdvanceCrSync(w, l).0.maps == w.maps
  {
    hide Marshal, Parse, FromFile, NewerThanFile, NotNewerThanFile, IsEmptyConfigFile, IsEmptyK8sConfig,
         IsEmptyConfigStruct, Annotated, Adopted, ConvertToConfig, ConvertToClusterConfigSpec, MapFromClusterConfig;
  }

  lemma {:induction false} RunKeepsMaps(s: State, acts: seq<Action>, n: nat, meaning: Api.Spec)
    requires Inv(s, meaning) && GoodMapsSince(s.w, n, meaning)
    ensures GoodMapsSince(Run(s, acts).w, n, meaning)
    decreases |acts|
  {
    hide Advance, Start, GoodWorld, GoodLocal, GoodMap;
    if acts == [] {
    } else {
      ApplyKeeps(s, acts[0], meaning);
      var a, t := acts[0], Apply(s, acts[0]);
      if a.Step? && a.pid in s.procs { AdvanceKeepsMaps(s.w, s.procs[a.pid], a.pick, n, meaning); }
      assert GoodMapsSince(t.w, n, meaning);
      hide Inv, Apply, GoodMapsSince;
      RunKeepsMaps(t, acts[1..], n, meaning);
    }
  }

  /** A readable file, nothing in flight, and resources that agree with the file or are blank, as
      when there is none yet. The ConfigMap may hold anything. */
  predicate Initial(s: State) {
    && ReadConfig(s.w.file).Some? && s.procs == map[] && !s.torn
    && var meaning := MapToClusterConfig(ReadConfig(s.w.file).value);
       forall i :: 0 <= i < |s.w.versions| ==> GoodVersion(s.w.versions[i], meaning)
  }

  predicate InPlaceWriteUnderWay(s: State) {
    exists p :: p in s.procs && s.procs[p].CrFill?
  }

  /** Whatever the operations do, in any interleaving and with any faults: the file means what it
      meant, or it is empty, and then an in-place write is under way or was cut short; a resource
      marked "false" and every version of the ConfigMap written since mean the same as the file; and
      every other resource is stopped by the emptiness guard. */
  lemma FileKeepsItsMeaning(s: State, acts: seq<Action>)
    requires Initial(s)
    ensures var t := Run(s, acts); var meaning := MapToClusterConfig(ReadConfig(s.w.file).value);
            && t.w.file.Present?
            && (if ReadConfig(t.w.file).Some? then MapToClusterConfig(ReadConfig(t.w.file).value) == meaning
                else t.w.file.content == Torn(true))
            && (!t.torn && !InPlaceWriteUnderWay(t) ==> ReadConfig(t.w.file).Some?)
            && (forall i :: 0 <= i < |t.w.versions| ==> GoodVersion(t.w.versions[i], meaning))
            && GoodMapsSince(t.w, |s.w.maps|, meaning)
  {
    hide Run, Advance, MapToClusterConfig, Unmarshal, IsEmptyK8sConfig;
    var meaning := MapToClusterConfig(ReadConfig(s.w.file).value);
    assert Inv(s, meaning);
    RunKeeps(s, acts, meaning);
    RunKeepsMaps(s, acts, |s.w.maps|, meaning);
  }

  // ---------------------------------------------------------------- crash safety

  /** The complete encoding of the spec of some committed version. */
  predicate EncodesAVersion(content: Content, versions: seq<ClusterConfig>) {
    exists i :: 0 <= i < |versions| && content == Whole(Marshal(MapFromClusterConfig(versions[i].spec)))
  }

  predicate Sourced(file: File, first: File, versions: seq<ClusterConfig>) {
    || (file.Absent? && first.Absent?)
    || (file.Present? && first.Present? && file.content == first.content)
    || (file.Present? && EncodesAVersion(file.content, versions))
  }

  /** What an operation in flight is about to write comes from a committed version. */
  predicate SourcedLocal(w: World, l: Local) {
    match l
    case RecChoose(cr, _) => cr in w.versions
    case RecFillTmp(cr) => cr in w.versions
    case RecRename(cr) => w.tmp.Some? && EncodesAVersion(w.tmp.value.content, w.versions)
    case CrStat(cr) => cr in w.versions
    case CrOpen(c) => EncodesAVersion(Whole(Marshal(c)), w.versions)
    case CrFill(c, _) => EncodesAVersion(Whole(Marshal(c)), w.versions)
    case _ => true
  }

  /** What opening the file for an in-place write leaves until it is filled. */
  predicate Emptied(file: File) {
    file.Present? && file.content == Torn(true)
  }

  predicate Traced(s: State, first: File) {
    && OneReconcile(s.procs)
    && (forall p :: p in s.procs ==> SourcedLocal(s.w, s.procs[p]))
    && (Sourced(s.w.file, first, s.w.versions) || Emptied(s.w.file))
  }

  lemma SourcedGrows(w: World, w': World, l: Local, file: File, first: File)
    requires w.versions <= w'.versions
    ensures SourcedLocal(w, l) && (l.RecRename? ==> w'.tmp == w.tmp) ==> SourcedLocal(w', l)
    ensures Sourced(file, first, w.versions) ==> Sourced(file, first, w'.versions)
  {
    hide Marshal, MapFromClusterConfig;
    forall content: Content | EncodesAVersion(content, w.versions) ensures EncodesAVersion(content, w'.versions) {
      var i :| 0 <= i < |w.versions| && content == Whole(Marshal(MapFromClusterConfig(w.versions[i].spec)));
      assert w'.versions[i] == w.versions[i];
    }
  }

  /** One step: committed versions stay, holdings stay sourced, and the file is as before, sourced,
      or opened for an in-place write. */
  predicate Traces(w: World, l: Local, w': World, next: Option<Local>) {
    && w.versions <= w'.versions
    && (next.Some? ==> SourcedLocal(w', next.value))
    && (!InReconcile(l) ==> w'.tmp == w.tmp)
    && (next.Some? && InReconcile(next.value) ==> InReconcile(l))
    && ((w'.file.Present? == w.file.Present? && (w.file.Present? ==> w'.file.content == w.file.content))
        || (w'.file.Present? && EncodesAVersion(w'.file.content, w'.versions))
        || (l.CrOpen? && Emptied(w'.file)))
  }

  lemma ReconcileTraces(w: World, l: Local, pick: nat)
    requires SourcedLocal(w, l) && InReconcile(l)
    ensures var (w', next) := AdvanceReconcile(w, l, pick); Traces(w, l, w', next)
  {
    hide Marshal, MapFromClusterConfig, Parse, FromFile, Adopted;
    if l.RecFillTmp? {
      var i :| 0 <= i < |w.versions| && w.versions[i] == l.cr;
      assert EncodesAVersion(Whole(Marshal(MapFromClusterConfig(l.cr.spec))), w.versions);
    }
  }

  lemma CrSyncTraces(w: World, l: Local)
    requires SourcedLocal(w, l) && !InReconcile(l)
    ensures var (w', next) := AdvanceCrSync(w, l); Traces(w, l, w', next)
  {
    hide Marshal, MapFromClusterConfig, ConvertToConfig, IsEmptyK8sConfig, IsEmptyConfigStruct, NotNewerThanFile;
    if l.CrStat? {
      ConvertedIsSourced(w, l.cr);
    }
    hide EncodesAVersion;
  }

  lemma ConvertedIsSourced(w: World, cr: ClusterConfig)
    requires cr in w.versions
    ensures EncodesAVersion(Whole(Marshal(ConvertToConfig(cr.spec))), w.versions)
  {
    hide Marshal, MapFromClusterConfig, ConvertToConfig;
    var i :| 0 <= i < |w.versions| && w.versions[i] == cr;
    assert ConvertToConfig(cr.spec) == MapFromClusterConfig(w.versions[i].spec);
  }

  lemma AdvanceTraces(w: World, l: Local, pick: nat)
    requires SourcedLocal(w, l)
    ensures var (w', next) := Advance(w, l, pick); Traces(w, l, w', next)
  {
    hide Marshal, Parse, NewerThanFile, Annotated, ConvertToClusterConfigSpec, IsEmptyConfigFile, EncodesAVersion,
         AdvanceReconcile, AdvanceCrSync;
    if InReconcile(l) {
      ReconcileTraces(w, l, pick);
    } else if !InSyncer(l) && !InFileSync(l) {
      CrSyncTraces(w, l);
    }
  }

  lemma StepTraces(s: State, pid: nat, pick: nat, first: File)
    requires Traced(s, first) && pid in s.procs
    ensures Traced(Apply(s, Step(pid, pick)), first)
  {
    hide Advance, EncodesAVersion, SourcedLocal;
    var l := s.procs[pid];
    var (w', next) := Advance(s.w, l, pick);
    var t := Apply(s, Step(pid, pick));
    AdvanceTraces(s.w, l, pick);
    SourcedGrows(s.w, w', l, s.w.file, first);
    forall p | p in t.procs ensures SourcedLocal(t.w, t.procs[p]) {
      if p != pid {
        assert InReconcile(s.procs[p]) ==> !InReconcile(l);
        SourcedGrows(s.w, w', s.procs[p], s.w.file, first);
      }
    }
  }

  lemma BeginTraces(s: State, pid: nat, op: Operation, first: File)
    requires Traced(s, first) && pid !in s.procs && Start(s, op).Some?
    ensures Traced(Apply(s, Begin(pid, op)), first)
  {
    hide Advance, EncodesAVersion, Sourced, Parse, GoodVersion, GoodMap;
    var t := Apply(s, Begin(pid, op));
    assert t == s.(procs := s.procs[pid := Start(s, op).value]);
    assert forall p :: p in s.procs ==> p in t.procs && t.procs[p] == s.procs[p];
    assert OneReconcile(t.procs);
  }

  lemma FailTraces(s: State, pid: nat, first: File)
    requires Traced(s, first) && pid in s.procs
    ensures Traced(Apply(s, Fail(pid)), first)
  {
    hide Advance, EncodesAVersion, Sourced, SourcedLocal;
    var t := Apply(s, Fail(pid));
    assert forall p :: p in s.procs && p != pid ==> p in t.procs && t.procs[p] == s.procs[p];
  }

  lemma ApplyTraces(s: State, a: Action, first: File)
    requires Traced(s, first)
    ensures Traced(Apply(s, a), first)
  {
    hide Advance, EncodesAVersion, Start, Sourced, SourcedLocal;
    match a
    case Step(pid, pick) => if pid in s.procs { StepTraces(s, pid, pick, first); }
    case Begin(pid, op) => if pid !in s.procs && Start(s, op).Some? { BeginTraces(s, pid, op, first); }
    case Fail(pid) => if pid in s.procs { FailTraces(s, pid, first); }
    case Tick(_) =>
      var t := Apply(s, a);
      SourcedGrows(s.w, t.w, RecGet, s.w.file, first);
      forall p | p in s.procs ensures SourcedLocal(t.w, s.procs[p]) {
        SourcedGrows(s.w, t.w, s.procs[p], s.w.file, first);
      }
    case Crash =>
  }

  lemma {:induction false} RunTraces(s: State, acts: seq<Action>, first: File)
    requires Traced(s, first)
    ensures Traced(Run(s, acts), first)
    decreases |acts|
  {
    hide Traced, Apply;
    if acts == [] {
    } else {
      ApplyTraces(s, acts[0], first);
      RunTraces(Apply(s, acts[0]), acts[1..], first);
    }
  }

  /** From any file and any leftover temporary file, whatever happens: the file is what it was, the
      complete encoding of a committed resource, or emptied by an in-place write. */
  lemma CrashSafety(s: State, acts: seq<Action>)
    requires s.procs == map[]
    ensures var t := Run(s, acts);
            Sourced(t.w.file, s.w.file, t.w.versions) || Emptied(t.w.file)
  {
    hide Run, EncodesAVersion;
    assert Traced(s, s.w.file);
    RunTraces(s, acts, s.w.file);
  }

  predicate ByRenameOnly(acts: seq<Action>) {
    forall i :: 0 <= i < |acts| ==> !(acts[i].Begin? && acts[i].op.SyncK8sToConfigFile?)
  }

  predicate NoInPlaceWriter(procs: map<nat, Local>) {
    forall p :: p in procs ==> !procs[p].CrStat? && !procs[p].CrOpen? && !procs[p].CrFill?
  }

  lemma StaysByRename(w: World, l: Local, pick: nat)
    requires !l.CrStat? && !l.CrOpen? && !l.CrFill?
    ensures var next := Advance(w, l, pick).1;
            next.Some? ==> !next.value.CrStat? && !next.value.CrOpen? && !next.value.CrFill?
  {
    hide Marshal, Unmarshal, MapToClusterConfig, ConvertToClusterConfigSpec;
  }

  lemma RenameStepStaysWhole(s: State, a: Action, first: File)
    requires Traced(s, first) && Sourced(s.w.file, first, s.w.versions) && NoInPlaceWriter(s.procs)
    requires !(a.Begin? && a.op.SyncK8sToConfigFile?)
    ensures Sourced(Apply(s, a).w.file, first, Apply(s, a).w.versions) && NoInPlaceWriter(Apply(s, a).procs)
  {
    hide Advance, EncodesAVersion, SourcedLocal;
    if a.Step? && a.pid in s.procs {
      var l := s.procs[a.pid];
      StaysByRename(s.w, l, a.pick);
      AdvanceTraces(s.w, l, a.pick);
      SourcedGrows(s.w, Apply(s, a).w, l, s.w.file, first);
    }
  }

  lemma {:induction false} RenameRunsStayWhole(s: State, acts: seq<Action>, first: File)
    requires Traced(s, first) && Sourced(s.w.file, first, s.w.versions) && NoInPlaceWriter(s.procs)
    requires ByRenameOnly(acts)
    ensures Sourced(Run(s, acts).w.file, first, Run(s, acts).w.versions)
    decreases |acts|
  {
    hide Apply, Traced, Sourced, NoInPlaceWriter;
    if acts == [] {
    } else {
      ApplyTraces(s, acts[0], first);
      RenameStepStaysWhole(s, acts[0], first);
      assert ByRenameOnly(acts[1..]) by {
        forall i | 0 <= i < |acts[1..]| ensures !(acts[1..][i].Begin? && acts[1..][i].op.SyncK8sToConfigFile?) {
          assert acts[1..][i] == acts[i + 1];
        }
      }
      RenameRunsStayWhole(Apply(s, acts[0]), acts[1..], first);
    }
  }

  /** When the file is only written by `Reconcile`, a crash at any point leaves the old text or a
      complete new one. */
  lemma RenameIsCrashSafe(s: State, acts: seq<Action>)
    requires s.procs == map[] && ByRenameOnly(acts)
    ensures Sourced(Run(s, acts).w.file, s.w.file, Run(s, acts).w.versions)
  {
    hide Run, EncodesAVersion;
    assert Traced(s, s.w.file);
    RenameRunsStayWhole(s, acts, s.w.file);
  }

  /** The other writer is not: a crash between opening the file and filling it loses the file. */
  lemma InPlaceWriteIsNotCrashSafe(s: State)
    requires s.procs == map[] && s.w.file.Present? && s.w.versions != []
    requires var cr := Last(s.w.versions); !IsEmptyK8sConfig(cr.spec) && !NotNewerThanFile(cr, s.w.file.mtime)
    ensures var t := Run(s, [Begin(0, SyncK8sToConfigFile(|s.w.versions| - 1)), Step(0, 0), Step(0, 0), Crash]);
            Emptied(t.w.file) && t.torn
  {
    var v := |s.w.versions| - 1;
    var cr := s.w.versions[v];
    var c, inode := ConvertToConfig(cr.spec), s.w.file.inode;
    var w1 := s.w.(file := s.w.file.(writable := true));
    var w2 := w1.(file := w1.file.(content := Torn(true), mtime := s.w.clock));
    assert Emptied(w2.file);
    GuardsPass(s.w, cr);
    FileOpened(w1, c);
    BeginsAlone(s, v);
    hide *;
    var s1 := State(s.w, map[0 := CrStat(cr)], s.torn);
    var s2 := State(w1, s1.procs[0 := CrOpen(c)], s.torn);
    var s3 := State(w2, s2.procs[0 := CrFill(c, inode)], s.torn);
    Stepped(s1, 0, 0, w1, CrOpen(c));
    Stepped(s2, 0, 0, w2, CrFill(c, inode));
    CrashTears(s3, 0);
    RunFour(s, Begin(0, SyncK8sToConfigFile(v)), Step(0, 0), Step(0, 0), Crash);
  }

  lemma BeginsAlone(s: State, v: nat)
    requires s.procs == map[] && v < |s.w.versions|
    ensures Apply(s, Begin(0, SyncK8sToConfigFile(v))) == State(s.w, map[0 := CrStat(s.w.versions[v])], s.torn)
  {
  }

  lemma CrashTears(s: State, pid: nat)
    requires pid in s.procs && s.procs[pid].CrFill?
    ensures Apply(s, Crash) == State(s.w, map[], true)
  {
  }

  /** The writer passes its guards and makes the file writable. */
  lemma GuardsPass(w: World, cr: ClusterConfig)
    requires w.file.Present? && !IsEmptyK8sConfig(cr.spec) && !NotNewerThanFile(cr, w.file.mtime)
    ensures Advance(w, CrStat(cr), 0)
         == (w.(file := w.file.(writable := true)), Some(CrOpen(ConvertToConfig(cr.spec))))
  {
    hide ConvertToConfig, IsEmptyK8sConfig, IsEmptyConfigStruct, NotNewerThanFile, AdvanceReconcile, AdvanceSyncer,
         AdvanceFileSync;
    SecondGuardIsRedundant(cr.spec);
  }

  /** Opening it empties it. */
  lemma FileOpened(w: World, c: Config)
    requires w.file.Present?
    ensures Advance(w, CrOpen(c), 0)
         == (w.(file := w.file.(content := Torn(true), mtime := w.clock)), Some(CrFill(c, w.file.inode)))
  {
    hide AdvanceReconcile, AdvanceSyncer, AdvanceFileSync;
  }

  lemma RunFour(s: State, a: Action, b: Action, c: Action, d: Action)
    ensures Run(s, [a, b, c, d]) == Apply(Apply(Apply(Apply(s, a), b), c), d)
  {
    hide Apply;
    assert [a, b, c, d][1..] == [b, c, d] && [b, c, d][1..] == [c, d] && [c, d][1..] == [d] && [d][1..] == [];
    var t := Apply(Apply(s, a), b);
    assert Run(s, [a, b, c, d]) == Run(t, [c, d]) == Run(Apply(t, c), [d]) == Run(Apply(Apply(t, c), d), []);
  }

  // ---------------------------------------------------------------- the syncer races the writer

  /** A syncer that read the file before `Reconcile` rewrote it puts the old text back into the
      ConfigMap; the next call repairs it. */
  lemma StaleSyncer(w: World, c: Config)
    requires w.versions != [] && !FromFile(Last(w.versions))
    requires ReadConfig(w.file) == Some(c) && c != MapFromClusterConfig(Last(w.versions).spec)
    ensures Advance(w, MapRead, 0) == (w, Some(MapGet(Marshal(c))))
    ensures Settled(Reconciled(w))
    ensures var raced := Alone(Reconciled(w), MapGet(Marshal(c)), 2);
            && FileCurrent(raced) && !MapCurrent(raced)
            && |raced.maps| == |Reconciled(w).maps| + 1
            && Settled(ConfigMapSynced(raced))
  {
    hide Marshal, Unmarshal, MapFromClusterConfig, MapToClusterConfig, Reconciled, ConfigMapSynced;
    var d := MapFromClusterConfig(Last(w.versions).spec);
    WriteStep(w);
    if Marshal(c) == Marshal(d) { MarshalInjective(c, d); }
    var v := Reconciled(w);
    assert Alone(v, MapGet(Marshal(c)), 2) == Alone(v, MapPut(Marshal(c), Some(|v.maps| - 1)), 1);
    SyncProgress(Alone(v, MapGet(Marshal(c)), 2));
  }

  // ---------------------------------------------------------------- what actions can and cannot do

  /** Only steps act on the world; the clock moves by itself. A start adds one operation, a failure
      takes it away, a crash takes all of them. */
  lemma OnlyStepsAct(s: State, a: Action)
    ensures !a.Step? ==> Apply(s, a).w == s.w.(clock := Apply(s, a).w.clock)
    ensures a.Tick? ==> Apply(s, a) == s.(w := s.w.(clock := s.w.clock + a.seconds))
    ensures !a.Tick? ==> Apply(s, a).w.clock == s.w.clock
    ensures a.Fail? && a.pid in s.procs ==> Apply(s, a).procs == s.procs - {a.pid}
    ensures a.Crash? ==> Apply(s, a).procs == map[]
    ensures a.Step? && a.pid !in s.procs ==> Apply(s, a) == s
    ensures Apply(s, a).torn <==>
              || s.torn
              || (a.Fail? && a.pid in s.procs && s.procs[a.pid].CrFill?)
              || (a.Crash? && exists p :: p in s.procs && s.procs[p].CrFill?)
  {
    if a.Step? && a.pid in s.procs { StepHistory(s.w, s.procs[a.pid], a.pick); }
    hide Advance, Start;
  }

  /** What is committed stays, in its order, and time does not move within a step. */
  predicate Later(w: World, v: World) {
    w.versions <= v.versions && w.maps <= v.maps && v.clock == w.clock
  }

  lemma StepHistory(w: World, l: Local, pick: nat)
    ensures Later(w, Advance(w, l, pick).0)
  {
    hide Marshal, Parse, FromFile, NewerThanFile, NotNewerThanFile, IsEmptyConfigFile, IsEmptyK8sConfig,
         IsEmptyConfigStruct, Annotated, Adopted, ConvertToConfig, ConvertToClusterConfigSpec, MapFromClusterConfig;
  }

  /** Reads may lag: each of the three reading operations can get any version committed so far. */
  lemma ReadsMayLag(w: World, k: nat, data: Json, mtime: int, spec: Api.Spec, now: nat)
    ensures k < |w.versions| ==> Advance(w, RecGet, k) == (w, Some(RecChoose(w.versions[k], k)))
    ensures k < |w.maps| ==> Advance(w, MapGet(data), k) == (w, Some(MapPut(data, Some(k))))
    ensures k < |w.versions| && !NewerThanFile(w.versions[k], mtime) ==>
              Advance(w, FileGet(mtime, spec, now), k)
              == (w, Some(FilePut(ClusterConfig(spec, Annotated(w.versions[k].annotations, "true", now)), Some(k))))
  {
    hide Marshal, Parse, FromFile, NewerThanFile, Annotated, AdvanceCrSync;
  }

  /** The version a write is based on: that of the resource or of the ConfigMap it has read. */
  function BasedOn(l: Local): Option<nat> {
    match l
    case RecUpdate(_, rv) => Some(rv)
    case MapPut(_, seen) => seen
    case FilePut(_, seen) => seen
    case _ => None
  }

  /** Optimistic concurrency: a write is accepted only on top of the version it is based on, and a
      creation only where there is nothing. */
  lemma OutdatedWritesAreRefused(w: World, l: Local, pick: nat)
    ensures var v := Advance(w, l, pick).0;
            && (v.versions != w.versions ==>
                  (l.RecUpdate? || l.FilePut?) && |v.versions| == |w.versions| + 1 && Last(v.versions) == l.cr
                  && BasedOn(l) == if w.versions == [] then None else Some(|w.versions| - 1))
            && (v.maps != w.maps ==>
                  l.MapPut? && |v.maps| == |w.maps| + 1
                  && BasedOn(l) == if w.maps == [] then None else Some(|w.maps| - 1))
  {
    hide Marshal, Parse, FromFile, NewerThanFile, NotNewerThanFile, IsEmptyConfigFile, IsEmptyK8sConfig,
         IsEmptyConfigStruct, Annotated, Adopted, ConvertToConfig, ConvertToClusterConfigSpec, MapFromClusterConfig;
  }

  /** The actions of an operation that nobody interferes with. */
  function Uninterrupted(w: World, l: Local, pid: nat, steps: nat): seq<Action>
    decreases steps
  {
    if steps == 0 then []
    else
      var (w', next) := Advance(w, l, Newest(w, l));
      [Step(pid, Newest(w, l))] + (match next case None => [] case Some(l') => Uninterrupted(w', l', pid, steps - 1))
  }

  /** Every operation can run to its end as if it were alone. */
  lemma {:induction false} AloneIsARun(s: State, pid: nat, steps: nat)
    requires pid in s.procs
    ensures Run(s, Uninterrupted(s.w, s.procs[pid], pid, steps)).w == Alone(s.w, s.procs[pid], steps)
    decreases steps
  {
    hide Advance, Newest;
    if steps > 0 {
      var l := s.procs[pid];
      var a := Step(pid, Newest(s.w, l));
      var (w', next) := Advance(s.w, l, Newest(s.w, l));
      var t := Apply(s, a);
      var acts := Uninterrupted(s.w, l, pid, steps);
      assert acts[0] == a && Run(s, acts) == Run(t, acts[1..]);
      match next
      case None => assert acts[1..] == [] && Run(t, []) == t;
      case Some(l') =>
        assert acts[1..] == Uninterrupted(w', l', pid, steps - 1);
        AloneIsARun(t, pid, steps - 1);
    }
  }

  function SequentialEffect(w: World, op: Operation): World
    requires op.SyncK8sToConfigFile? ==> op.version < |w.versions|
  {
    match op
    case Reconcile => Reconciled(w)
    case SyncConfig => ConfigMapSynced(w)
    case SyncClusterConfig => FileSynced(w)
    case SyncK8sToConfigFile(v) => CrSynced(w, w.versions[v])
  }

  /** Started with nothing else in flight, each of the four operations has a run that does what the
      sequential model says. */
  lemma OperationsRun(s: State, op: Operation) returns (acts: seq<Action>)
    requires s.procs == map[] && (op.SyncK8sToConfigFile? ==> op.version < |s.w.versions|)
    ensures Run(s, [Begin(0, op)] + acts).w == SequentialEffect(s.w, op)
  {
    hide Alone, Reconciled, ConfigMapSynced, FileSynced, CrSynced, Run, Uninterrupted;
    var l := Start(s, op).value;
    var t := State(s.w, map[0 := l], s.torn);
    assert Apply(s, Begin(0, op)) == t;
    var n := match op case Reconcile => 8 case SyncConfig => 3 case SyncClusterConfig => 4 case _ => 3;
    assert Alone(s.w, l, n) == SequentialEffect(s.w, op) by { AllAlone(s.w, op); }
    hide *;
    acts := Uninterrupted(s.w, l, 0, n);
    AloneIsARun(t, 0, n);
    FirstOf(s, Begin(0, op), acts);
  }

  lemma AllAlone(w: World, op: Operation)
    requires op.SyncK8sToConfigFile? ==> op.version < |w.versions|
    ensures Alone(w, RecGet, 8) == Reconciled(w) && Alone(w, MapRead, 3) == ConfigMapSynced(w)
    ensures Alone(w, FileStat, 4) == FileSynced(w)
    ensures op.SyncK8sToConfigFile? ==>
              Alone(w, CrStat(w.versions[op.version]), 3) == CrSynced(w, w.versions[op.version])
  {
    hide *;
    ReconcileAlone(w);
    MapSyncAlone(w, 3);
    FileSyncAlone(w);
    if op.SyncK8sToConfigFile? { CrSyncAlone(w, w.versions[op.version]); }
  }

  lemma FirstOf(s: State, a: Action, rest: seq<Action>)
    ensures Run(s, [a] + rest) == Run(Apply(s, a), rest)
  {
    hide Apply;
    assert ([a] + rest)[1..] == rest;
  }
}
