/**
 * `slaunch/deploy.py`: recording a deployed version in a repository manifest.
 * A manifest maps each app (or library) name to an entry holding its
 * `latest` and, once released, its `current` version. The YAML files are
 * given as values: a missing file reads as an empty manifest.
 *
 * `slaunch/constants.py` is not part of this model; `VERSION_LATEST` and
 * `VERSION_CURRENT` are taken to be `latest` and `current`, the literals
 * `slaunch/main.py` reads the same fields by.
 */
module Deploy {
  import opened Base
  import opened PyValues

  const Latest := "latest"
  const Current := "current"

  /** One manifest entry, a YAML mapping. */
  type Entry = map<string, Value>
  type Manifest = map<string, Entry>

  /** The `KeyError` a lookup of a missing field raises. */
  function Missing(field: string): string {
    "KeyError: '" + field + "'"
  }

  /**
   * Lines 15-29: the new entry for a name whose entry was `existing`. A new
   * `latest_ver` starts a fresh entry, `None` (Python's) starts from a copy;
   * then `current` is kept, promoted to the new `latest`, or taken from the
   * previous `latest`.
   */
  function UpdateEntry(existing: Entry, latestVer: Value, updateCurrent: bool): Result<Entry, string> {
    var start := if latestVer == Null then existing else map[Latest := latestVer];
    if Current in existing && !updateCurrent then Ok(start[Current := existing[Current]])
    else if Current in existing && updateCurrent then
      if Latest in start then Ok(start[Current := start[Latest]]) else Err(Missing(Latest))
    else if !updateCurrent then
      if Latest in existing then Ok(start[Current := existing[Latest]]) else Err(Missing(Latest))
    else Ok(start)
  }

  /**
   * What the new entry holds, field by field: `latest` is the new version
   * (or the copied one), other fields survive only a copy, and `current` is
   * kept, promoted or adopted from the previous `latest`, except that a
   * promotion with nothing to promote from, or an adoption with no previous
   * `latest`, raises `KeyError`.
   */
  lemma UpdateEntryFields(existing: Entry, latestVer: Value, updateCurrent: bool)
    ensures var r := UpdateEntry(existing, latestVer, updateCurrent);
      && (r.Err? <==> ((Current in existing && updateCurrent && latestVer == Null && Latest !in existing)
                       || (Current !in existing && !updateCurrent && Latest !in existing)))
      && (r.Err? ==> r.error == Missing(Latest))
      && (r.Ok? ==>
          && (Latest in r.value <==> latestVer != Null || Latest in existing)
          && (latestVer != Null ==> r.value[Latest] == latestVer)
          && (latestVer == Null && Latest in existing ==> r.value[Latest] == existing[Latest])
          && (forall k :: k in r.value && k != Latest && k != Current
                ==> latestVer == Null && k in existing && r.value[k] == existing[k])
          && (latestVer == Null ==> forall k :: k in existing ==> k in r.value)
          && (Current in r.value <==> Current in existing || !updateCurrent)
          && (Current in existing && !updateCurrent ==> r.value[Current] == existing[Current])
          && (Current in existing && updateCurrent ==> Latest in r.value && r.value[Current] == r.value[Latest])
          && (Current !in existing && !updateCurrent ==> Latest in existing && r.value[Current] == existing[Latest]))
  {
  }

  /** The whole transform of `update_manifest`: only the entry for `name` changes. */
  function UpdateManifest(manifest: Manifest, name: string, latestVer: Value, updateCurrent: bool): (r: Result<Manifest, string>)
    ensures var existing := if name in manifest then manifest[name] else map[];
      && (r.Ok? <==> UpdateEntry(existing, latestVer, updateCurrent).Ok?)
      && (r.Ok? ==> r.value.Keys == manifest.Keys + {name}
                    && r.value[name] == UpdateEntry(existing, latestVer, updateCurrent).value
                    && forall k :: k in manifest && k != name ==> r.value[k] == manifest[k])
  {
    var existing := if name in manifest then manifest[name] else map[];
    var entry :- UpdateEntry(existing, latestVer, updateCurrent);
    Ok(manifest[name := entry])
  }

  /** Deploying a version without promotion leaves a released `current` in place. */
  lemma DeployKeepsCurrent(existing: Entry, version: Value)
    requires version != Null && Current in existing
    ensures UpdateEntry(existing, version, false) == Ok(map[Latest := version, Current := existing[Current]])
  {
  }

  /** Deploying a version with promotion makes it both `latest` and `current`. */
  lemma DeployPromotes(existing: Entry, version: Value)
    requires version != Null && Current in existing
    ensures UpdateEntry(existing, version, true) == Ok(map[Latest := version, Current := version])
  {
  }

  /**
   * The first deployment of a name: without promotion there is no previous
   * `latest` to adopt, so it fails; with promotion no `current` is set at all.
   */
  lemma FirstDeploy(version: Value)
    requires version != Null
    ensures UpdateEntry(map[], version, false) == Err(Missing(Latest))
    ensures UpdateEntry(map[], version, true) == Ok(map[Latest := version])
  {
  }

  /** Recording the same deployment twice is the same as recording it once. */
  lemma UpdateEntryIdempotent(existing: Entry, latestVer: Value, updateCurrent: bool)
    requires UpdateEntry(existing, latestVer, updateCurrent).Ok?
    ensures var once := UpdateEntry(existing, latestVer, updateCurrent).value;
      UpdateEntry(once, latestVer, updateCurrent) == Ok(once)
  {
    var once := UpdateEntry(existing, latestVer, updateCurrent).value;
    if latestVer == Null {
      if Current in existing && updateCurrent {
        assert once == existing[Current := existing[Latest]];
        assert once[Current := once[Latest]] == once;
      } else if Current in existing {
        assert once == existing;
      } else if !updateCurrent {
        assert once == existing[Current := existing[Latest]];
        assert once[Current := once[Current]] == once;
      } else {
        assert once == existing;
      }
    } else {
      if Current in existing || !updateCurrent {
        assert Current in once && Latest in once && once == map[Latest := latestVer, Current := once[Current]];
        if updateCurrent {
          assert once[Current] == latestVer;
        }
      } else {
        assert once == map[Latest := latestVer];
      }
    }
  }

  // ------------------------------------------------ the manifest files

  /** The repository's two manifest files: the apps manifest at its root and the libraries manifest under `LIBS`. */
  datatype Repository = Repository(apps: Option<Manifest>, libs: Option<Manifest>)

  function ReadManifest(file: Option<Manifest>): Manifest {
    if file.Some? then file.value else map[]
  }

  /** `update_manifest` as written: the manifest is read from the libraries file when `libs`, but always written to the root file. */
  function UpdateManifestFilesAsWritten(repo: Repository, name: string, latestVer: Value, libs: bool, updateCurrent: bool)
    : (r: Result<Repository, string>)
    ensures r.Ok? <==> UpdateManifest(ReadManifest(if libs then repo.libs else repo.apps), name, latestVer, updateCurrent).Ok?
    ensures r.Ok? ==> r.value.libs == repo.libs
    ensures r.Ok? ==> r.value.apps == Some(UpdateManifest(ReadManifest(if libs then repo.libs else repo.apps),
                                                          name, latestVer, updateCurrent).value)
  {
    var m :- UpdateManifest(ReadManifest(if libs then repo.libs else repo.apps), name, latestVer, updateCurrent);
    Ok(repo.(apps := Some(m)))
  }

  /**
   * As written, recording a library deployment replaces the apps manifest by
   * the libraries manifest: an app the libraries manifest does not list is lost.
   */
  lemma LibraryDeployLosesApps(repo: Repository, app: string, lib: string, version: Value, updateCurrent: bool)
    requires repo.apps.Some? && app in repo.apps.value && app != lib
    requires app !in ReadManifest(repo.libs)
    requires UpdateManifest(ReadManifest(repo.libs), lib, version, updateCurrent).Ok?
    ensures UpdateManifestFilesAsWritten(repo, lib, version, true, updateCurrent).Ok?
    ensures app !in UpdateManifestFilesAsWritten(repo, lib, version, true, updateCurrent).value.apps.value
  {
  }

  /** `update_manifest` as intended: the manifest is written back to the file it was read from. */
  function UpdateManifestFiles(repo: Repository, name: string, latestVer: Value, libs: bool, updateCurrent: bool)
    : (r: Result<Repository, string>)
    ensures r.Ok? <==> UpdateManifest(ReadManifest(if libs then repo.libs else repo.apps), name, latestVer, updateCurrent).Ok?
    ensures r.Ok? && libs ==> (r.value.apps == repo.apps
                               && r.value.libs == Some(UpdateManifest(ReadManifest(repo.libs), name, latestVer, updateCurrent).value))
    ensures r.Ok? && !libs ==> (r.value.libs == repo.libs
                                && r.value.apps == Some(UpdateManifest(ReadManifest(repo.apps), name, latestVer, updateCurrent).value))
  {
    if libs then
      var m :- UpdateManifest(ReadManifest(repo.libs), name, latestVer, updateCurrent);
      Ok(repo.(libs := Some(m)))
    else
      var m :- UpdateManifest(ReadManifest(repo.apps), name, latestVer, updateCurrent);
      Ok(repo.(apps := Some(m)))
  }
}
