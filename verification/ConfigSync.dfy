/** The three copies of the configuration: the host file, the `ClusterConfig` resource and the
    `k4all-config` ConfigMap, and what each operation does to them when it runs alone, without
    faults and on fresh reads. */
module Copies {
  import opened Prelude
  import opened Json
  import opened ConfigFile
  import Api = ClusterApi
  import Decimal

  const FILE_SYNC := "k4all.magesgate.com/file-sync"
  const LAST_UPDATE := "k4all.magesgate.com/last-update"
  const CONFIG_KEY := "config.json"

  /** A file holds a whole text, or what an unfinished write left: nothing, or part of a text. */
  datatype Content = Whole(tree: Json) | Torn(empty: bool)
  datatype File = Absent | Present(content: Content, mtime: int, inode: nat, writable: bool)
  datatype Draft = Draft(content: Content, mtime: int)

  datatype ClusterConfig = ClusterConfig(spec: Api.Spec, annotations: map<string, string>)
  type ConfigMap = map<string, Json>

  /** `versions` and `maps` hold every committed version of the resource and of the ConfigMap's
      data, the last one current; a resourceVersion is a position in them. */
  datatype World = World(file: File, tmp: Option<Draft>, nextInode: nat,
                         versions: seq<ClusterConfig>, maps: seq<ConfigMap>, clock: nat)

  function Last<T>(s: seq<T>): T
    requires s != []
  {
    s[|s| - 1]
  }

  function Parse(content: Content): Option<Config> {
    match content
    case Whole(tree) => Unmarshal(tree)
    case Torn(_) => None
  }

  /** `ParseConfigFile`. */
  function ReadConfig(file: File): Option<Config> {
    if file.Absent? then None else Parse(file.content)
  }

  /** The annotation decides the direction: only the exact text "false" turns the file away. */
  predicate FromFile(cr: ClusterConfig) {
    !(FILE_SYNC in cr.annotations && cr.annotations[FILE_SYNC] == "false")
  }

  function Annotated(annotations: map<string, string>, fileSync: string, now: nat): map<string, string> {
    annotations[FILE_SYNC := fileSync][LAST_UPDATE := Decimal.Format(now)]
  }

  function LastUpdate(cr: ClusterConfig): Option<int> {
    if LAST_UPDATE in cr.annotations then Decimal.ParseInt(cr.annotations[LAST_UPDATE]) else None
  }

  /** `lastUpdate > fileModTime`: stops file to resource. */
  predicate NewerThanFile(cr: ClusterConfig, mtime: int) {
    LastUpdate(cr).Some? && LastUpdate(cr).value > mtime
  }

  /** `lastUpdate <= fileModTime`: stops resource to file. */
  predicate NotNewerThanFile(cr: ClusterConfig, mtime: int) {
    LastUpdate(cr).Some? && LastUpdate(cr).value <= mtime
  }

  /** The resource `Reconcile` stores after reading the file. */
  function Adopted(cr: ClusterConfig, c: Config, now: nat): ClusterConfig {
    ClusterConfig(MapToClusterConfig(c), Annotated(cr.annotations, "false", now))
  }

  /** `WriteClusterConfigToFile`: a new file takes the place of the old one. */
  function Replaced(w: World, spec: Api.Spec): World {
    w.(file := Present(Whole(Marshal(MapFromClusterConfig(spec))), w.clock, w.nextInode, true),
       tmp := None, nextInode := w.nextInode + 1)
  }

  /** `WriteConfigFile`: the file is rewritten in place. */
  function Overwritten(w: World, c: Config): World {
    var text := Whole(Marshal(c));
    match w.file
    case Absent => w.(file := Present(text, w.clock, w.nextInode, true), nextInode := w.nextInode + 1)
    case Present(_, _, _, _) => w.(file := w.file.(content := text, mtime := w.clock))
  }

  /** `K4allConfigSyncer.SyncConfig`. */
  function ConfigMapSynced(w: World): World {
    match ReadConfig(w.file)
    case None => w
    case Some(c) =>
      var data := Marshal(c);
      if w.maps == [] then w.(maps := [map[CONFIG_KEY := data]])
      else
        var cm := Last(w.maps);
        if CONFIG_KEY in cm && cm[CONFIG_KEY] == data then w
        else w.(maps := w.maps + [cm[CONFIG_KEY := data]])
  }

  /** `ClusterConfigReconciler.Reconcile`. */
  function Reconciled(w: World): World {
    if w.versions == [] then w
    else
      var cr := Last(w.versions);
      if FromFile(cr) then
        match ReadConfig(w.file)
        case None => w
        case Some(c) => ConfigMapSynced(w.(versions := w.versions + [Adopted(cr, c, w.clock)]))
      else ConfigMapSynced(Replaced(w, cr.spec))
  }

  /** `SyncClusterConfig`. */
  function FileSynced(w: World): World {
    match ReadConfig(w.file)
    case None => w
    case Some(c) =>
      if IsEmptyConfigFile(c) then w
      else
        var spec := ConvertToClusterConfigSpec(c);
        if w.versions == [] then
          w.(versions := [ClusterConfig(spec, Annotated(map[], "true", w.clock))])
        else
          var cr := Last(w.versions);
          if NewerThanFile(cr, w.file.mtime) then w
          else w.(versions := w.versions + [ClusterConfig(spec, Annotated(cr.annotations, "true", w.clock))])
  }

  /** `SyncK8sToConfigFile`. */
  function CrSynced(w: World, cr: ClusterConfig): World {
    if IsEmptyK8sConfig(cr.spec) then w
    else if w.file.Present? && NotNewerThanFile(cr, w.file.mtime) then w
    else
      var c := ConvertToConfig(cr.spec);
      if IsEmptyConfigStruct(c) then w
      else Overwritten(if w.file.Present? then w.(file := w.file.(writable := true)) else w, c)
  }

  // ---------------------------------------------------------------- timestamps

  /** The file already is what copying the resource would make of it now. */
  predicate AlreadyCopied(w: World, cr: ClusterConfig) {
    w.file.Present? && w.file == Present(Whole(Marshal(ConvertToConfig(cr.spec))), w.clock, w.file.inode, true)
  }

  /** For a readable, non-empty file and a non-empty resource with a readable timestamp exactly one
      of the two directions is open: either the resource takes the file over and the other
      operation does nothing, or the file takes the resource's text and the first does nothing. */
  lemma GuardsPartition(w: World, cr: ClusterConfig)
    requires ReadConfig(w.file).Some? && !IsEmptyConfigFile(ReadConfig(w.file).value)
    requires w.versions != [] && cr == Last(w.versions) && !IsEmptyK8sConfig(cr.spec) && LastUpdate(cr).Some?
    ensures FileSynced(w) != w <==> LastUpdate(cr).value <= w.file.mtime
    ensures CrSynced(w, cr) == w <==> FileSynced(w) != w || AlreadyCopied(w, cr)
    ensures FileSynced(w) != w ==> FileSynced(w).file == w.file && |FileSynced(w).versions| == |w.versions| + 1
    ensures FileSynced(w) == w ==>
              && CrSynced(w, cr).versions == w.versions
              && ReadConfig(CrSynced(w, cr).file) == Some(MapFromClusterConfig(cr.spec))
  {
    hide Marshal, Unmarshal, MapToClusterConfig, ConvertToClusterConfigSpec, Size;
    UnmarshalAfterMarshal(MapFromClusterConfig(cr.spec));
    SecondGuardIsRedundant(cr.spec);
  }

  /** What a step writes into the annotation is what the guards read back. */
  lemma TimestampReadBack(annotations: map<string, string>, fileSync: string, now: nat, spec: Api.Spec)
    requires now < Decimal.INT64_LIMIT
    ensures LastUpdate(ClusterConfig(spec, Annotated(annotations, fileSync, now))) == Some(now as int)
  {
    Decimal.ParseAfterFormat(now);
  }

  /** After the file has been copied to the resource, copying again, in the same second or any
      later one, does nothing if and only if the clock had moved past the file's time. */
  lemma FileSyncDisablesItself(w: World, later: nat)
    requires w.clock < Decimal.INT64_LIMIT
    requires FileSynced(w) != w
    ensures var v := FileSynced(w).(clock := w.clock + later);
            FileSynced(v) == v <==> w.clock > w.file.mtime
  {
    hide Marshal, Unmarshal, MapToClusterConfig, ConvertToClusterConfigSpec;
    var v := FileSynced(w).(clock := w.clock + later);
    var before := if w.versions == [] then map[] else Last(w.versions).annotations;
    var c := ReadConfig(w.file).value;
    TimestampReadBack(before, "true", w.clock, ConvertToClusterConfigSpec(c));
    assert Last(v.versions) == ClusterConfig(ConvertToClusterConfigSpec(c), Annotated(before, "true", w.clock));
    if w.clock <= w.file.mtime {
      assert |FileSynced(v).versions| == |v.versions| + 1;
    }
  }

  /** A resource with a readable timestamp newer than the file is copied to it; the copy closes its
      own guard if and only if the clock has reached the timestamp. */
  lemma CrSyncDisablesItself(w: World, cr: ClusterConfig)
    requires LastUpdate(cr).Some? && !IsEmptyK8sConfig(cr.spec)
    requires w.file.Present? ==> NewerThanFile(cr, w.file.mtime)
    ensures var v := CrSynced(w, cr);
            && ReadConfig(v.file) == Some(MapFromClusterConfig(cr.spec))
            && (NotNewerThanFile(cr, v.file.mtime) <==> LastUpdate(cr).value <= w.clock)
  {
    hide Marshal, Unmarshal, Size;
    UnmarshalAfterMarshal(MapFromClusterConfig(cr.spec));
    SecondGuardIsRedundant(cr.spec);
  }

  /** The two directions do not converge: a file copied to the resource blanks it, and the blank
      resource is never copied back. */
  lemma FileSyncBlanksTheResource(w: World)
    requires FileSynced(w) != w
    ensures var v := FileSynced(w);
            IsEmptyK8sConfig(Last(v.versions).spec) && CrSynced(v, Last(v.versions)) == v
  {
    hide Marshal, Unmarshal, MapToClusterConfig, ConvertToClusterConfigSpec, IsEmptyK8sConfig;
  }

  // ---------------------------------------------------------------- quiescence of the event loop

  /** The ConfigMap holds the file. */
  predicate MapCurrent(w: World) {
    && w.maps != [] && CONFIG_KEY in Last(w.maps)
    && ReadConfig(w.file).Some? && Last(w.maps)[CONFIG_KEY] == Marshal(ReadConfig(w.file).value)
  }

  /** The file is the current resource, written out. */
  predicate FileCurrent(w: World) {
    && w.versions != [] && !FromFile(Last(w.versions))
    && w.file.Present? && w.file.content == Whole(Marshal(MapFromClusterConfig(Last(w.versions).spec)))
  }

  /** All three copies agree and nothing is left to do. */
  predicate Settled(w: World) {
    FileCurrent(w) && MapCurrent(w)
  }

  datatype Call = CallReconcile | CallSyncer | Wait(seconds: nat)

  function AfterCall(w: World, call: Call): World {
    match call
    case CallReconcile => Reconciled(w)
    case CallSyncer => ConfigMapSynced(w)
    case Wait(n) => w.(clock := w.clock + n)
  }

  function AfterCalls(w: World, calls: seq<Call>): World
    decreases |calls|
  {
    if calls == [] then w else AfterCalls(AfterCall(w, calls[0]), calls[1..])
  }

  function Reconciles(calls: seq<Call>): nat {
    if calls == [] then 0 else (if calls[0].CallReconcile? then 1 else 0) + Reconciles(calls[1..])
  }

  predicate Running(w: World) {
    w.versions != [] && ReadConfig(w.file).Some?
  }

  /** Updates of the resource, writes of the ConfigMap and `Reconcile` calls still to come. */
  function UpdatesLeft(w: World): nat
    requires w.versions != []
  {
    if FromFile(Last(w.versions)) then 1 else 0
  }

  function MapWritesLeft(w: World): nat {
    (if MapCurrent(w) then 0 else 1) + (if FileCurrent(w) then 0 else 1)
  }

  function ReconcilesLeft(w: World): nat
    requires w.versions != []
  {
    if FromFile(Last(w.versions)) then 2 else if Settled(w) then 0 else 1
  }

  /** The copies are the same; only the file's time and inode may differ. */
  predicate SameCopies(v: World, w: World) {
    && v.file.Present? && w.file.Present? && v.file.content == w.file.content
    && v.versions == w.versions && v.maps == w.maps
  }

  lemma SyncProgress(w: World)
    requires ReadConfig(w.file).Some?
    ensures var v := ConfigMapSynced(w);
            && v == w.(maps := v.maps) && MapCurrent(v)
            && |v.maps| == |w.maps| + (if MapCurrent(w) then 0 else 1)
            && (MapCurrent(w) ==> v == w)
  {
    hide Marshal, Unmarshal;
  }

  /** `Reconcile` in the direction file to resource. */
  lemma ReadStep(w: World)
    requires Running(w) && FromFile(Last(w.versions))
    ensures var v := Reconciled(w); var c := ReadConfig(w.file).value;
            && v.file == w.file && v.versions == w.versions + [Adopted(Last(w.versions), c, w.clock)]
            && v.maps != [] && CONFIG_KEY in Last(v.maps) && Last(v.maps)[CONFIG_KEY] == Marshal(c)
  {
    hide Marshal, Unmarshal, MapToClusterConfig;
    SyncProgress(w.(versions := w.versions + [Adopted(Last(w.versions), ReadConfig(w.file).value, w.clock)]));
  }

  /** `Reconcile` in the direction resource to file. */
  lemma WriteStep(w: World)
    requires w.versions != [] && !FromFile(Last(w.versions))
    ensures var v := Reconciled(w); var c := MapFromClusterConfig(Last(w.versions).spec);
            && v.file.Present? && v.file.content == Whole(Marshal(c)) && ReadConfig(v.file) == Some(c)
            && v.versions == w.versions
            && v.maps != [] && CONFIG_KEY in Last(v.maps) && Last(v.maps)[CONFIG_KEY] == Marshal(c)
  {
    hide Marshal, Unmarshal, MapFromClusterConfig;
    UnmarshalAfterMarshal(MapFromClusterConfig(Last(w.versions).spec));
    SyncProgress(Replaced(w, Last(w.versions).spec));
  }

  lemma CallProgress(w: World, call: Call)
    requires Running(w)
    ensures var v := AfterCall(w, call);
            && Running(v)
            && |v.versions| + UpdatesLeft(v) <= |w.versions| + UpdatesLeft(w)
            && |v.maps| + MapWritesLeft(v) <= |w.maps| + MapWritesLeft(w)
            && ReconcilesLeft(v) <= ReconcilesLeft(w)
            && (call.CallReconcile? && ReconcilesLeft(w) > 0 ==> ReconcilesLeft(v) < ReconcilesLeft(w))
            && (Settled(w) ==> SameCopies(v, w))
  {
    hide Marshal, Unmarshal, MapToClusterConfig, MapFromClusterConfig;
    var cr := Last(w.versions);
    match call
    case CallSyncer => SyncProgress(w);
    case Wait(_) =>
    case CallReconcile =>
      if FromFile(cr) {
        var adopted := w.(versions := w.versions + [Adopted(cr, ReadConfig(w.file).value, w.clock)]);
        assert MapCurrent(adopted) == MapCurrent(w);
        SyncProgress(adopted);
      } else {
        UnmarshalAfterMarshal(MapFromClusterConfig(cr.spec));
        SyncProgress(Replaced(w, cr.spec));
      }
  }

  /** With a readable file, any sequence of whole `Reconcile` and syncer calls, one after the other,
      updates the resource at most once and the ConfigMap at most twice, and from the second
      `Reconcile` on all three copies agree. Calls that overlap are the subject of `EventLoop`. */
  lemma {:induction false} Quiescence(w: World, calls: seq<Call>)
    requires Running(w)
    ensures var v := AfterCalls(w, calls);
            && Running(v)
            && |v.versions| <= |w.versions| + UpdatesLeft(w)
            && |v.maps| <= |w.maps| + MapWritesLeft(w)
            && (Reconciles(calls) >= ReconcilesLeft(w) ==> Settled(v))
            && (Settled(w) ==> SameCopies(v, w))
    decreases |calls|
  {
    hide AfterCall, ReadConfig, MapCurrent, UpdatesLeft, MapWritesLeft, Marshal;
    if calls == [] {
    } else {
      CallProgress(w, calls[0]);
      Quiescence(AfterCall(w, calls[0]), calls[1..]);
    }
  }

  /** The bounds of `Quiescence` in numbers, and what the settled copies hold when the resource
      starts from the file: the file's own content, normalised. */
  lemma TwoReconcilesSettle(w: World, calls: seq<Call>)
    requires Running(w) && Reconciles(calls) >= 2
    ensures var v := AfterCalls(w, calls);
            && |v.versions| <= |w.versions| + 1 && |v.maps| <= |w.maps| + 2
            && Settled(v)
  {
    Quiescence(w, calls);
  }

  /** What two `Reconcile` calls leave when the resource takes the file over. */
  lemma AdoptionNormalisesTheFile(w: World)
    requires Running(w) && FromFile(Last(w.versions))
    ensures var c := ReadConfig(w.file).value; var v := Reconciled(Reconciled(w));
            && ReadConfig(v.file) == Some(Normalise(c))
            && v.versions != [] && Last(v.versions).spec == MapToClusterConfig(c)
            && v.file.Present? && (v.file.content == Whole(Marshal(c)) <==> IsNormal(c))
  {
    hide Marshal, Unmarshal, MapToClusterConfig, MapFromClusterConfig, IsNormal, Reconciled;
    var c := ReadConfig(w.file).value;
    ReadStep(w);
    WriteStep(Reconciled(w));
    Normalisation(c);
    if Marshal(Normalise(c)) == Marshal(c) { MarshalInjective(Normalise(c), c); }
  }

  // ---------------------------------------------------------------- the gates of the feature reconcilers

  /** (managed, enabled) as `VirtReconciler` and `ArgocdReconciler` read them from the ConfigMap:
      exact comparisons with "true". */
  function Gates(cm: ConfigMap): Option<((bool, bool), (bool, bool))> {
    if CONFIG_KEY !in cm then None
    else
      match Unmarshal(cm[CONFIG_KEY])
      case None => None
      case Some(c) =>
        Some(((c.features.virt.managed == "true", c.features.virt.enabled == "true"),
              (c.features.argocd.managed == "true", c.features.argocd.enabled == "true")))
  }

  function Intended(s: Api.Spec): ((bool, bool), (bool, bool)) {
    ((s.features.virt.managed, s.features.virt.enabled), (s.features.argocd.managed, s.features.argocd.enabled))
  }

  /** After a `Reconcile` that writes the file, the gates open exactly as the resource says. */
  lemma GatesAgreeAfterWrite(w: World)
    requires w.versions != [] && !FromFile(Last(w.versions))
    ensures var v := Reconciled(w);
            v.maps != [] && v.versions != [] && Gates(Last(v.maps)) == Some(Intended(Last(v.versions).spec))
  {
    hide Marshal, Unmarshal, Reconciled;
    UnmarshalAfterMarshal(MapFromClusterConfig(Last(w.versions).spec));
    WriteStep(w);
  }

  predicate ExactWhenTrue(s: string) {
    SaysTrue(s) ==> s == "true"
  }

  /** After a `Reconcile` that reads the file, they agree with the resource if and only if the
      file writes its four booleans that are true in lower case. */
  lemma GatesAgreeAfterRead(w: World)
    requires Running(w) && FromFile(Last(w.versions))
    ensures var v := Reconciled(w); var f := ReadConfig(w.file).value.features;
            && v.maps != [] && Gates(Last(v.maps)).Some? && v.versions != []
            && (Gates(Last(v.maps)).value == Intended(Last(v.versions).spec)
                <==> ExactWhenTrue(f.virt.managed) && ExactWhenTrue(f.virt.enabled)
                     && ExactWhenTrue(f.argocd.managed) && ExactWhenTrue(f.argocd.enabled))
  {
    hide Marshal, Unmarshal, Reconciled;
    UnmarshalAfterMarshal(ReadConfig(w.file).value);
    ReadStep(w);
    assert SaysTrue("true");
  }

  // ---------------------------------------------------------------- each step on every part of the world

  /** The two annotations are set, the time as a text that reads back, and all others kept. */
  ghost predicate Stamped(before: map<string, string>, after: map<string, string>, fileSync: string, now: nat) {
    && FILE_SYNC in after && after[FILE_SYNC] == fileSync
    && LAST_UPDATE in after && Decimal.ParseInt(after[LAST_UPDATE]) == Some(now as int)
    && forall k :: k != FILE_SYNC && k != LAST_UPDATE ==>
         (k in before <==> k in after) && (k in before ==> after[k] == before[k])
  }

  /** One version more, after the ones there were. */
  ghost predicate OneMore<T>(before: seq<T>, after: seq<T>) {
    |after| == |before| + 1 && before <= after
  }

  /** The resource is told to keep away from the file by the exact text "false" only. */
  lemma DirectionIsRead(cr: ClusterConfig)
    ensures FromFile(cr) <==> !("k4all.magesgate.com/file-sync" in cr.annotations
                                && cr.annotations["k4all.magesgate.com/file-sync"] == "false")
  {
  }

  /** Nothing to read, nothing done. */
  lemma IdleSteps(w: World)
    ensures w.versions == [] ==> Reconciled(w) == w
    ensures w.versions != [] && FromFile(Last(w.versions)) && ReadConfig(w.file).None? ==> Reconciled(w) == w
    ensures ReadConfig(w.file).None? ==> ConfigMapSynced(w) == w && FileSynced(w) == w
  {
    hide Unmarshal;
  }

  /** `SyncConfig`: the file's text under its key, other keys kept, and nothing else touched. */
  lemma SyncEffect(w: World)
    requires ReadConfig(w.file).Some?
    ensures var v := ConfigMapSynced(w); var text := Marshal(ReadConfig(w.file).value);
            && v == w.(maps := v.maps) && v.maps != []
            && "config.json" in Last(v.maps) && Last(v.maps)["config.json"] == text
            && (v.maps == w.maps || OneMore(w.maps, v.maps))
            && (v.maps == w.maps <==>
                  w.maps != [] && "config.json" in Last(w.maps) && Last(w.maps)["config.json"] == text)
            && forall k :: k != "config.json" ==>
                 (k in Last(v.maps) <==> w.maps != [] && k in Last(w.maps))
                 && (w.maps != [] && k in Last(w.maps) ==> k in Last(v.maps) && Last(v.maps)[k] == Last(w.maps)[k])
  {
    hide Marshal, Unmarshal;
  }

  /** `Reconcile`, reading the file: one update, marked "false" and stamped with the clock. It keeps
      `SyncClusterConfig` away from what it has read if and only if the clock has passed the file's
      time, or the file has no version. */
  lemma ReadEffect(w: World)
    requires Running(w) && FromFile(Last(w.versions)) && w.clock < Decimal.INT64_LIMIT
    ensures var v := Reconciled(w); var c := ReadConfig(w.file).value;
            && v == w.(versions := v.versions, maps := v.maps) && OneMore(w.versions, v.versions)
            && Last(v.versions).spec == MapToClusterConfig(c)
            && Stamped(Last(w.versions).annotations, Last(v.versions).annotations, "false", w.clock)
            && LastUpdate(Last(v.versions)) == Some(w.clock as int) && !FromFile(Last(v.versions))
            && (FileSynced(v) == v <==> c.version == "" || w.clock > w.file.mtime)
  {
    hide Marshal, Unmarshal, MapToClusterConfig, ConvertToClusterConfigSpec;
    var c := ReadConfig(w.file).value;
    var adopted := w.(versions := w.versions + [Adopted(Last(w.versions), c, w.clock)]);
    SyncEffect(adopted);
    TimestampReadBack(Last(w.versions).annotations, "false", w.clock, MapToClusterConfig(c));
    var v := Reconciled(w);
    if c.version != "" && w.clock <= w.file.mtime { assert |FileSynced(v).versions| == |v.versions| + 1; }
  }

  /** `Reconcile`, writing the file: a new, writable file of this second with the resource's text,
      and no temporary file left. */
  lemma WriteEffect(w: World)
    requires w.versions != [] && !FromFile(Last(w.versions))
    ensures var v := Reconciled(w); var text := Marshal(MapFromClusterConfig(Last(w.versions).spec));
            && v == w.(file := Present(Whole(text), w.clock, w.nextInode, true), tmp := None,
                       nextInode := w.nextInode + 1, maps := v.maps)
            && (w.maps == v.maps || OneMore(w.maps, v.maps))
  {
    hide Marshal, Unmarshal, MapFromClusterConfig;
    UnmarshalAfterMarshal(MapFromClusterConfig(Last(w.versions).spec));
    SyncEffect(Replaced(w, Last(w.versions).spec));
  }

  /** `SyncClusterConfig` acts on a readable file with a version, unless the resource's timestamp is
      later than the file's; it blanks all but the version, marks the resource "true" and stamps it. */
  lemma FileSyncEffect(w: World)
    requires w.clock < Decimal.INT64_LIMIT
    ensures var v := FileSynced(w); var read := ReadConfig(w.file);
            var later := w.versions != [] && LastUpdate(Last(w.versions)).Some?
                         && w.file.Present? && LastUpdate(Last(w.versions)).value > w.file.mtime;
            && (v != w <==> read.Some? && read.value.version != "" && !later)
            && (v != w ==>
                  && v == w.(versions := v.versions) && OneMore(w.versions, v.versions)
                  && Last(v.versions).spec == Api.Spec(read.value.version, Api.EMPTY_NETWORKING, Api.EMPTY_FEATURES,
                                                       Api.EMPTY_CLUSTER)
                  && Stamped(if w.versions == [] then map[] else Last(w.versions).annotations,
                             Last(v.versions).annotations, "true", w.clock)
                  && FromFile(Last(v.versions)))
  {
    hide Marshal, Unmarshal, MapToClusterConfig;
    if ReadConfig(w.file).Some? {
      var before := if w.versions == [] then map[] else Last(w.versions).annotations;
      TimestampReadBack(before, "true", w.clock, ConvertToClusterConfigSpec(ReadConfig(w.file).value));
      var v := FileSynced(w);
      if v != w { assert |v.versions| == |w.versions| + 1; }
    }
    assert "true"[0] != "false"[0];
  }

  /** `SyncK8sToConfigFile` acts on a resource that has its three mandatory fields, unless its
      timestamp is not later than that of an existing file; it rewrites the file in place. */
  lemma CrSyncEffect(w: World, cr: ClusterConfig)
    ensures var v := CrSynced(w, cr); var s := cr.spec;
            var complete := s.version != "" && s.networking.cniType != "" && s.networking.iface.dev != "";
            var late := w.file.Present? && LastUpdate(cr).Some? && LastUpdate(cr).value <= w.file.mtime;
            if complete && !late then
              && v == w.(file := v.file, nextInode := v.nextInode)
              && v.file == Present(Whole(Marshal(MapFromClusterConfig(s))), w.clock,
                                   if w.file.Present? then w.file.inode else w.nextInode, true)
              && v.nextInode == w.nextInode + (if w.file.Present? then 0 else 1)
            else v == w
  {
    hide Marshal, Unmarshal, Size, MapFromClusterConfig;
    SecondGuardIsRedundant(cr.spec);
  }
}
