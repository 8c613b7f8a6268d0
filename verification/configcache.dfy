/**
 * The daemon's configuration cache, `load()` (lib/config.py:115-130): every `*.yaml` file of
 * `/opt/klot-io/config` is named by what precedes the first dot of its file name, and is read
 * again only when that name is new or its file's modification time changed since it was last
 * read. The folder is a map from file name to its modification time and its YAML document.
 */
module ConfigCache {
  import opened Strings
  import opened Documents

  /** A file of the configuration folder. */
  datatype File = File(mtime: int, document: Value)

  /** `/opt/klot-io/config`, by file name. */
  type Folder = map<string, File>

  const Extension := ".yaml"

  /** `glob("*.yaml")`: a name ending in `.yaml` that is not hidden. */
  predicate Listed(name: string) {
    var cut := |name| - |Extension|;
    cut > 0 && name[cut..] == Extension && name[0] != '.'
  }

  /** `path.split("/")[-1].split('.')[0]`. */
  function ConfigOf(name: string): string {
    Before(name, ".")
  }

  /** A listed file with the configuration it names. */
  datatype Entry = Entry(config: string, file: File)

  /** The files `load()` visits, by file name. */
  type Catalogue = map<string, Entry>

  function Catalog(folder: Folder): Catalogue {
    map name | name in folder && Listed(name) :: Entry(ConfigOf(name), folder[name])
  }

  /** The configurations the files name. */
  function Configs(catalog: Catalogue): set<string> {
    set name | name in catalog :: catalog[name].config
  }

  /** No two files name the same configuration (as `a.yaml` and `a.old.yaml` would). */
  predicate Unambiguous(catalog: Catalogue) {
    forall a, b :: a in catalog && b in catalog && catalog[a].config == catalog[b].config ==> a == b
  }

  /** A file is read when its configuration is new or its time differs from the one recorded. */
  predicate Stale(mtimes: map<string, int>, entry: Entry) {
    entry.config !in mtimes || mtimes[entry.config] != entry.file.mtime
  }

  /** The files among `names` that are stale against `mtimes`. */
  function StaleOf(catalog: Catalogue, names: set<string>, mtimes: map<string, int>): set<string> {
    set name | name in names && name in catalog && Stale(mtimes, catalog[name])
  }

  /** The time recorded for the configuration of each file of `names`. */
  function StampsOf(catalog: Catalogue, names: set<string>): map<string, int>
    requires Unambiguous(catalog)
  {
    map name | name in names && name in catalog :: catalog[name].config := catalog[name].file.mtime
  }

  /** The document of each file of `names`, by configuration. */
  function DocumentsOf(catalog: Catalogue, names: set<string>): map<string, Value>
    requires Unambiguous(catalog)
  {
    map name | name in names && name in catalog :: catalog[name].config := catalog[name].file.document
  }

  /** The document loaded for the configuration of each file of `names` that is stale against `mtimes`. */
  function LoadsOf(catalog: Catalogue, names: set<string>, mtimes: map<string, int>): map<string, Value>
    requires Unambiguous(catalog)
  {
    DocumentsOf(catalog, StaleOf(catalog, names, mtimes))
  }

  /** `m` and `n` agree at `key`. */
  predicate SameAt<V(==)>(m: map<string, V>, n: map<string, V>, key: string) {
    (key in m <==> key in n) && (key in m ==> m[key] == n[key])
  }

  /** No configuration appears twice. */
  predicate Distinct(s: seq<string>) {
    forall i, j :: 0 <= i < j < |s| ==> s[i] != s[j]
  }

  /** `self.config`, `self.mtimes` and `self.modified`. */
  class Loader {
    var config: map<string, Value>
    var mtimes: map<string, int>
    var modified: seq<string>

    constructor ()
      ensures config == map[] && mtimes == map[] && modified == []
    {
      config := map[];
      mtimes := map[];
      modified := [];
    }

    /**
     * `load()`: the files are visited in no particular order. Whatever the files, the
     * outcome is `Kept`; when each configuration has one file, it is `Tracked` over all
     * files as well: the times
     * of all files are recorded, exactly the stale files are loaded, and `modified` names
     * each of their configurations once.
     */
    method Load(folder: Folder)
      modifies this
      ensures Kept(Catalog(folder), old(mtimes), old(config), mtimes, config, modified)
      ensures Tracked(Catalog(folder), Catalog(folder).Keys, old(mtimes), old(config), mtimes, config, modified)
    {
      var catalog := Catalog(folder);
      modified := [];
      var left := catalog.Keys;
      ghost var visited: set<string> := {};
      TrackStart(catalog, mtimes, config);
      while left != {}
        invariant visited + left == catalog.Keys && visited !! left
        invariant Progress(catalog, visited, old(mtimes), old(config), mtimes, config, modified)
        decreases left
      {
        var name :| name in left;
        var entry := catalog[name];
        if entry.config !in mtimes || mtimes[entry.config] != entry.file.mtime {
          VisitStale(catalog, visited, name, old(mtimes), old(config), mtimes, config, modified);
          config := config[entry.config := entry.file.document];
          mtimes := mtimes[entry.config := entry.file.mtime];
          modified := modified + [entry.config];
        } else {
          VisitFresh(catalog, visited, name, old(mtimes), old(config), mtimes, config, modified);
        }
        visited := visited + {name};
        left := left - {name};
      }
    }
  }

  /**
   * What the visits so far keep: `modified` names configurations of files, configurations
   * no file names are untouched, and the visited files are `Tracked`.
   */
  ghost predicate Progress(catalog: Catalogue, done: set<string>, mtimes0: map<string, int>, config0: map<string, Value>,
                           mtimes: map<string, int>, config: map<string, Value>, modified: seq<string>)
  {
    Kept(catalog, mtimes0, config0, mtimes, config, modified) &&
    Tracked(catalog, done, mtimes0, config0, mtimes, config, modified)
  }

  /**
   * Whatever the files: `modified` names configurations of files, and a configuration no
   * file names keeps its time and document from `mtimes0` and `config0`.
   */
  ghost predicate Kept(catalog: Catalogue, mtimes0: map<string, int>, config0: map<string, Value>,
                       mtimes: map<string, int>, config: map<string, Value>, modified: seq<string>)
  {
    (forall c :: c in modified ==> c in Configs(catalog)) &&
    (forall c :: c !in Configs(catalog) ==> SameAt(mtimes, mtimes0, c) && SameAt(config, config0, c))
  }

  lemma TrackStart(catalog: Catalogue, mtimes0: map<string, int>, config0: map<string, Value>)
    ensures Progress(catalog, {}, mtimes0, config0, mtimes0, config0, [])
  {
    KeptStart(catalog, mtimes0, config0);
    TrackedStart(catalog, mtimes0, config0);
  }

  lemma KeptStart(catalog: Catalogue, mtimes0: map<string, int>, config0: map<string, Value>)
    ensures Kept(catalog, mtimes0, config0, mtimes0, config0, [])
  {
  }

  lemma TrackedStart(catalog: Catalogue, mtimes0: map<string, int>, config0: map<string, Value>)
    ensures Tracked(catalog, {}, mtimes0, config0, mtimes0, config0, [])
  {
    if Unambiguous(catalog) {
      StartStamps(catalog, mtimes0);
      StartLoads(catalog, mtimes0, config0);
    }
  }

  lemma StartStamps(catalog: Catalogue, mtimes0: map<string, int>)
    requires Unambiguous(catalog)
    ensures mtimes0 == mtimes0 + StampsOf(catalog, {})
  {
    MergeEmpty(mtimes0, StampsOf(catalog, {}));
  }

  lemma StartLoads(catalog: Catalogue, mtimes0: map<string, int>, config0: map<string, Value>)
    requires Unambiguous(catalog)
    ensures LoadsOf(catalog, {}, mtimes0) == map[]
    ensures config0 == config0 + LoadsOf(catalog, {}, mtimes0)
  {
    assert StaleOf(catalog, {}, mtimes0) == {};
    MergeEmpty(config0, DocumentsOf(catalog, {}));
    MergeEmpty(map[], DocumentsOf(catalog, {}));
  }

  /** Merging a map with no keys changes nothing. */
  lemma MergeEmpty<V>(m: map<string, V>, n: map<string, V>)
    requires forall key :: key !in n
    ensures m + n == m
  {
  }

  lemma VisitStale(catalog: Catalogue, done: set<string>, name: string, mtimes0: map<string, int>, config0: map<string, Value>,
                   mtimes: map<string, int>, config: map<string, Value>, modified: seq<string>)
    requires Progress(catalog, done, mtimes0, config0, mtimes, config, modified)
    requires name in catalog && name !in done && Stale(mtimes, catalog[name])
    ensures var entry := catalog[name];
            Progress(catalog, done + {name}, mtimes0, config0, mtimes[entry.config := entry.file.mtime],
                     config[entry.config := entry.file.document], modified + [entry.config])
  {
    assert catalog[name].config in Configs(catalog);
    TrackStale(catalog, done, name, mtimes0, config0, mtimes, config, modified);
  }

  lemma VisitFresh(catalog: Catalogue, done: set<string>, name: string, mtimes0: map<string, int>, config0: map<string, Value>,
                   mtimes: map<string, int>, config: map<string, Value>, modified: seq<string>)
    requires Progress(catalog, done, mtimes0, config0, mtimes, config, modified)
    requires name in catalog && name !in done && !Stale(mtimes, catalog[name])
    ensures Progress(catalog, done + {name}, mtimes0, config0, mtimes, config, modified)
  {
    TrackFresh(catalog, done, name, mtimes0, config0, mtimes, config, modified);
  }

  /**
   * When each configuration has one file: having visited the files of `done`, from the
   * times `mtimes0` and documents `config0`, the times and documents are `mtimes` and
   * `config`, and `modified` names each configuration loaded once.
   */
  ghost predicate Tracked(catalog: Catalogue, done: set<string>, mtimes0: map<string, int>, config0: map<string, Value>,
                          mtimes: map<string, int>, config: map<string, Value>, modified: seq<string>)
  {
    Unambiguous(catalog) ==>
      mtimes == mtimes0 + StampsOf(catalog, done) &&
      config == config0 + LoadsOf(catalog, done, mtimes0) &&
      Distinct(modified) &&
      forall c :: c in modified <==> c in LoadsOf(catalog, done, mtimes0)
  }

  /** Updating a merged map updates its right operand. */
  lemma MergeUpdate<V>(m: map<string, V>, n: map<string, V>, key: string, value: V)
    ensures (m + n)[key := value] == m + n[key := value]
  {
  }

  /** A file's configuration is recorded only after that file was visited. */
  lemma NotYetRecorded(catalog: Catalogue, done: set<string>, mtimes0: map<string, int>, name: string)
    requires Unambiguous(catalog) && name in catalog && name !in done
    ensures catalog[name].config !in StampsOf(catalog, done)
    ensures catalog[name].config !in LoadsOf(catalog, done, mtimes0)
  {
  }

  lemma StampsAdd(catalog: Catalogue, done: set<string>, name: string)
    requires Unambiguous(catalog) && name in catalog
    ensures StampsOf(catalog, done + {name}) == StampsOf(catalog, done)[catalog[name].config := catalog[name].file.mtime]
  {
  }

  lemma LoadsAdd(catalog: Catalogue, done: set<string>, name: string, mtimes0: map<string, int>)
    requires Unambiguous(catalog) && name in catalog && Stale(mtimes0, catalog[name])
    ensures LoadsOf(catalog, done + {name}, mtimes0) == LoadsOf(catalog, done, mtimes0)[catalog[name].config := catalog[name].file.document]
  {
    assert StaleOf(catalog, done + {name}, mtimes0) == StaleOf(catalog, done, mtimes0) + {name};
    DocumentsAdd(catalog, StaleOf(catalog, done, mtimes0), name);
  }

  lemma DocumentsAdd(catalog: Catalogue, names: set<string>, name: string)
    requires Unambiguous(catalog) && name in catalog
    ensures DocumentsOf(catalog, names + {name}) == DocumentsOf(catalog, names)[catalog[name].config := catalog[name].file.document]
  {
  }

  lemma LoadsSkip(catalog: Catalogue, done: set<string>, name: string, mtimes0: map<string, int>)
    requires Unambiguous(catalog) && name in catalog && !Stale(mtimes0, catalog[name])
    ensures LoadsOf(catalog, done + {name}, mtimes0) == LoadsOf(catalog, done, mtimes0)
  {
    assert StaleOf(catalog, done + {name}, mtimes0) == StaleOf(catalog, done, mtimes0);
  }

  lemma TrackStale(catalog: Catalogue, done: set<string>, name: string, mtimes0: map<string, int>, config0: map<string, Value>,
                   mtimes: map<string, int>, config: map<string, Value>, modified: seq<string>)
    requires Tracked(catalog, done, mtimes0, config0, mtimes, config, modified)
    requires name in catalog && name !in done && Stale(mtimes, catalog[name])
    ensures var entry := catalog[name];
            Tracked(catalog, done + {name}, mtimes0, config0, mtimes[entry.config := entry.file.mtime],
                    config[entry.config := entry.file.document], modified + [entry.config])
  {
    if Unambiguous(catalog) {
      var entry := catalog[name];
      NotYetRecorded(catalog, done, mtimes0, name);
      assert Stale(mtimes0, entry);
      StampsAdd(catalog, done, name);
      LoadsAdd(catalog, done, name, mtimes0);
      MergeUpdate(mtimes0, StampsOf(catalog, done), entry.config, entry.file.mtime);
      MergeUpdate(config0, LoadsOf(catalog, done, mtimes0), entry.config, entry.file.document);
      assert entry.config !in modified;
    }
  }

  lemma TrackFresh(catalog: Catalogue, done: set<string>, name: string, mtimes0: map<string, int>, config0: map<string, Value>,
                   mtimes: map<string, int>, config: map<string, Value>, modified: seq<string>)
    requires Tracked(catalog, done, mtimes0, config0, mtimes, config, modified)
    requires name in catalog && name !in done && !Stale(mtimes, catalog[name])
    ensures Tracked(catalog, done + {name}, mtimes0, config0, mtimes, config, modified)
  {
    if Unambiguous(catalog) {
      var entry := catalog[name];
      NotYetRecorded(catalog, done, mtimes0, name);
      assert !Stale(mtimes0, entry);
      StampsAdd(catalog, done, name);
      LoadsSkip(catalog, done, name, mtimes0);
      MergeUpdate(mtimes0, StampsOf(catalog, done), entry.config, entry.file.mtime);
    }
  }

  /** Loading again from an unchanged folder loads nothing: every file is current against the recorded times. */
  lemma LoadSettles(catalog: Catalogue, mtimes: map<string, int>)
    requires Unambiguous(catalog)
    ensures LoadsOf(catalog, catalog.Keys, mtimes + StampsOf(catalog, catalog.Keys)) == map[]
  {
    var after := mtimes + StampsOf(catalog, catalog.Keys);
    forall name | name in catalog
      ensures !Stale(after, catalog[name])
    {
      assert catalog[name].config in StampsOf(catalog, catalog.Keys);
    }
    assert StaleOf(catalog, catalog.Keys, after) == {};
  }

  /** A file whose time differs from the one recorded for its configuration is loaded. */
  lemma ChangedFileLoads(folder: Folder, mtimes: map<string, int>, name: string)
    requires Unambiguous(Catalog(folder)) && name in folder && Listed(name)
    requires ConfigOf(name) in mtimes && mtimes[ConfigOf(name)] != folder[name].mtime
    ensures var loads := LoadsOf(Catalog(folder), Catalog(folder).Keys, mtimes);
            ConfigOf(name) in loads && loads[ConfigOf(name)] == folder[name].document
  {
    assert name in StaleOf(Catalog(folder), Catalog(folder).Keys, mtimes);
  }
}
