/** The operations as the code performs them, step by step on the host's files and the API store;
    each is proved to have the effect the sequential model gives it. */
module Operator {
  import opened Prelude
  import opened ConfigFile
  import opened Copies
  import Decimal

  /** Errors of the file functions; `fmt.Errorf("...: %w", err)` wraps. */
  datatype FileError = NotExist | Malformed | Wrapped(inner: FileError)
  datatype Outcome<+T> = Ok(value: T) | Err(error: FileError)

  /** `os.IsNotExist` does not look inside a wrapped error. */
  predicate IsNotExist(e: FileError) {
    e.NotExist?
  }

  class Node {
    var file: File
    var tmp: Option<Draft>
    var nextInode: nat
    var versions: seq<ClusterConfig>
    var maps: seq<ConfigMap>
    var clock: nat

    function Snapshot(): World
      reads this
    {
      World(file, tmp, nextInode, versions, maps, clock)
    }

    constructor (w: World)
      ensures Snapshot() == w
    {
      file, tmp, nextInode, versions, maps, clock := w.file, w.tmp, w.nextInode, w.versions, w.maps, w.clock;
    }

    // ---------------------------------------------------------------- config_parser.go, config_writer.go

    method ParseConfigFile() returns (r: Outcome<Config>)
      ensures r.Ok? <==> ReadConfig(file).Some?
      ensures r.Ok? ==> ReadConfig(file) == Some(r.value)
      ensures r.Err? ==> r.error == Wrapped(if file.Absent? then NotExist else Malformed)
    {
      if file.Absent? { return Err(Wrapped(NotExist)); }
      var parsed := Parse(file.content);
      if parsed.None? { return Err(Wrapped(Malformed)); }
      return Ok(parsed.value);
    }

    /** The temporary file is written first and then takes the place of the file. */
    method WriteClusterConfigToFile(cr: ClusterConfig)
      modifies this
      ensures Snapshot() == Replaced(old(Snapshot()), cr.spec)
    {
      var config := MapFromClusterConfig(cr.spec);
      var data := Marshal(config);
      tmp := Some(Draft(Whole(data), clock));
      file := Present(tmp.value.content, tmp.value.mtime, nextInode, true);
      tmp := None;
      nextInode := nextInode + 1;
    }

    /** `os.WriteFile` empties or creates the file and then fills it. */
    method WriteConfigFile(config: Config)
      modifies this
      ensures Snapshot() == Overwritten(old(Snapshot()), config)
    {
      var data := Marshal(config);
      if file.Absent? {
        file := Present(Torn(true), clock, nextInode, true);
        nextInode := nextInode + 1;
      } else {
        file := file.(content := Torn(true), mtime := clock);
      }
      file := file.(content := Whole(data), mtime := clock);
    }

    method ReadConfigAndUpdateK8s(cr: ClusterConfig) returns (r: Outcome<ClusterConfig>)
      ensures r.Ok? <==> ReadConfig(file).Some?
      ensures r.Ok? ==> r.value == cr.(spec := MapToClusterConfig(ReadConfig(file).value))
    {
      var parsed := ParseConfigFile();
      if parsed.Err? { return Err(parsed.error); }
      return Ok(cr.(spec := MapToClusterConfig(parsed.value)));
    }

    /** For a readable file the merge writes what `WriteClusterConfigToFile` writes: nothing of the
        file survives it. For an unreadable file, a missing one included, it fails and writes nothing. */
    method MergeAndWriteConfig(cr: ClusterConfig) returns (ok: bool)
      modifies this
      ensures ok <==> old(ReadConfig(file)).Some?
      ensures Snapshot() == if ok then Replaced(old(Snapshot()), cr.spec) else old(Snapshot())
    {
      var existing := ParseConfigFile();
      if existing.Err? {
        // The branch that would create a missing file tests the wrapped error, so it is never taken.
        if IsNotExist(existing.error) { assert false; }
        return false;
      }
      var fileConfig := new ConfigRef(existing.value);
      var merged := MergeConfigs(fileConfig, cr.spec);
      WriteClusterConfigToFile(cr.(spec := MapToClusterConfig(merged.value)));
      return true;
    }

    // ---------------------------------------------------------------- feature_controller.go

    method SyncConfig() returns (ok: bool)
      modifies this`maps
      ensures ok <==> ReadConfig(file).Some?
      ensures Snapshot() == ConfigMapSynced(old(Snapshot()))
    {
      hide Marshal, Unmarshal;
      var fileConfig := ParseConfigFile();
      if fileConfig.Err? { return false; }
      var data := Marshal(fileConfig.value);
      if maps == [] {
        maps := [map[CONFIG_KEY := data]];
        return true;
      }
      var cm := maps[|maps| - 1];
      if !(CONFIG_KEY in cm && cm[CONFIG_KEY] == data) {
        cm := cm[CONFIG_KEY := data];
        maps := maps + [cm];
      }
      return true;
    }

    // ---------------------------------------------------------------- clusterconfig_controller.go

    method Reconcile() returns (ok: bool)
      modifies this
      ensures Snapshot() == Reconciled(old(Snapshot()))
      ensures ok <==> old(versions == [] || !FromFile(Last(versions)) || ReadConfig(file).Some?)
    {
      hide Marshal, Unmarshal, MapToClusterConfig, MapFromClusterConfig;
      if versions == [] { return true; }
      var cr := versions[|versions| - 1];
      var syncFromFile := true;
      if FILE_SYNC in cr.annotations && cr.annotations[FILE_SYNC] == "false" {
        syncFromFile := false;
      }
      if syncFromFile {
        var updated := ReadConfigAndUpdateK8s(cr);
        if updated.Err? { return false; }
        cr := updated.value;
        cr := cr.(annotations := cr.annotations[FILE_SYNC := "false"]);
        cr := cr.(annotations := cr.annotations[LAST_UPDATE := Decimal.Format(clock)]);
        versions := versions + [cr];
      } else {
        WriteClusterConfigToFile(cr);
        UnmarshalAfterMarshal(MapFromClusterConfig(cr.spec));
      }
      ok := SyncConfig();
    }

    // ---------------------------------------------------------------- clusterconfig_sync.go

    method SyncClusterConfig() returns (ok: bool)
      modifies this`versions
      ensures Snapshot() == FileSynced(old(Snapshot()))
      ensures ok <==> file.Absent? || file.content == Torn(true) || ReadConfig(file).Some?
    {
      hide Marshal, Unmarshal, ConvertToClusterConfigSpec;
      if file.Absent? { return true; }
      if file.content == Torn(true) { return true; }
      var fileModTime := file.mtime;
      var parsed := ParseConfigFile();
      if parsed.Err? { return false; }
      if IsEmptyConfigFile(parsed.value) { return true; }
      var now := Decimal.Format(clock);
      var parsedConfig := ClusterConfig(ConvertToClusterConfigSpec(parsed.value),
                                 map[FILE_SYNC := "true", LAST_UPDATE := now]);
      if versions == [] {
        assert parsedConfig.annotations == Annotated(map[], "true", clock);
        versions := [parsedConfig];
        return true;
      }
      var existing := versions[|versions| - 1];
      if LAST_UPDATE in existing.annotations {
        var lastUpdate := Decimal.ParseInt(existing.annotations[LAST_UPDATE]);
        if lastUpdate.Some? && lastUpdate.value > fileModTime { return true; }
      }
      existing := existing.(spec := parsedConfig.spec);
      existing := existing.(annotations := existing.annotations[FILE_SYNC := "true"]);
      existing := existing.(annotations := existing.annotations[LAST_UPDATE := now]);
      versions := versions + [existing];
      return true;
    }

    // ---------------------------------------------------------------- clusterconfig_sync_bidirectional.go

    method SyncK8sToConfigFile(cr: ClusterConfig)
      modifies this
      ensures Snapshot() == CrSynced(old(Snapshot()), cr)
    {
      hide Marshal, Unmarshal, ConvertToConfig, IsEmptyConfigStruct;
      if IsEmptyK8sConfig(cr.spec) { return; }
      if file.Present? && LAST_UPDATE in cr.annotations {
        var lastUpdate := Decimal.ParseInt(cr.annotations[LAST_UPDATE]);
        if lastUpdate.Some? && lastUpdate.value <= file.mtime { return; }
      }
      var cfg := ConvertToConfig(cr.spec);
      if IsEmptyConfigStruct(cfg) { return; }
      if file.Present? && !file.writable {
        file := file.(writable := true);
      }
      WriteConfigFile(cfg);
    }
  }
}
