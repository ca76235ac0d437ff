/**
 * `IndexerManagerService`: the registry of indexers by ID, the per-indexer
 * configuration file `<dir>/<ID>.json`, and the test that browses a tracker
 * and fills the RSS cache. Files are a map from path to text, directories a
 * set of paths, and the dependency container a map from ID to a fresh,
 * unconfigured instance.
 */
module IndexerManagerService {
  import opened Wrappers
  import opened JackettModels
  import opened Sorting
  import CD = ConfigurationData

  /** `Path.Combine(dir, file)` with '/' as the separator. */
  function CombinePath(dir: string, file: string): string {
    if dir == [] || (file != [] && file[0] == '/') then file
    else if dir[|dir| - 1] == '/' then dir + file
    else dir + "/" + file
  }

  /** A combined path always ends in the file name. */
  lemma CombinePathEndsWithFile(dir: string, file: string)
    ensures var r := CombinePath(dir, file);
      |file| <= |r| && r[|r| - |file|..] == file
  {
  }

  /** `GetIndexerConfigFilePath`: `<dir>/<ID>.json`. */
  function ConfigFilePath(dir: string, id: string): string {
    CombinePath(dir, id + ".json")
  }

  /** The configuration file of an indexer is named after its ID. */
  lemma ConfigFilePathEndsWithId(dir: string, id: string)
    ensures var r := ConfigFilePath(dir, id);
      |id| + 5 <= |r| && r[|r| - |id| - 5..] == id + ".json"
  {
    CombinePathEndsWithFile(dir, id + ".json");
  }

  /** The directory part that `CombinePath` puts in front of a relative file name. */
  function DirPrefix(dir: string): string {
    if dir == [] then [] else if dir[|dir| - 1] == '/' then dir else dir + "/"
  }

  /** For a relative ID the path is the directory, a separator where needed, the ID and ".json". */
  lemma ConfigFilePathShape(dir: string, id: string)
    requires id == [] || id[0] != '/'
    ensures ConfigFilePath(dir, id) == DirPrefix(dir) + id + ".json"
  {
    var file := id + ".json";
    assert file[0] == if id == [] then '.' else id[0];
    if dir == [] {
      assert DirPrefix(dir) + id + ".json" == file;
    }
  }

  /** Two indexers with different (relative) IDs never share a configuration file. */
  lemma ConfigFilePathInjective(dir: string, a: string, b: string)
    requires a == [] || a[0] != '/'
    requires b == [] || b[0] != '/'
    requires ConfigFilePath(dir, a) == ConfigFilePath(dir, b)
    ensures a == b
  {
    ConfigFilePathShape(dir, a);
    ConfigFilePathShape(dir, b);
    var p := DirPrefix(dir);
    assert |a| == |b|;
    forall i | 0 <= i < |a|
      ensures a[i] == b[i]
    {
      assert a[i] == (p + a + ".json")[|p| + i];
      assert b[i] == (p + b + ".json")[|p| + i];
    }
  }

  /** What the registry reads during init: the directory, the files and the parsers. */
  datatype Environment = Environment(
    dir: string,
    files: map<string, string>,
    parse: string -> Option<CD.JArray>,
    /** The state `LoadFromSavedConfiguration` leaves an indexer in, whether or not it threw (the exception is caught). */
    loadSaved: (Indexer, CD.JArray) -> Indexer)

  /** The exceptions that abort `InitIndexers`. */
  datatype InitError = DuplicateKey(id: string) | UnreadableConfig(path: string)

  /** The registry after init: the dictionary, its key order, and the exception if one escaped. */
  datatype InitState = InitState(indexers: map<string, Indexer>, order: seq<string>, error: Option<InitError>)

  /** `OrderBy(_ => _.DisplayName)`'s comparison. */
  predicate ByDisplayName(a: Indexer, b: Indexer) {
    OrdinalLe(a.displayName, b.displayName)
  }

  lemma ByDisplayNameTotal()
    ensures Total(ByDisplayName)
  {
    forall a: Indexer, b: Indexer
      ensures ByDisplayName(a, b) || ByDisplayName(b, a)
    {
      OrdinalLeTotal(a.displayName, b.displayName);
    }
  }

  function Ids(s: seq<Indexer>): (r: seq<string>)
    ensures |r| == |s|
    ensures forall k :: 0 <= k < |s| ==> r[k] == s[k].id
  {
    seq(|s|, k requires 0 <= k < |s| => s[k].id)
  }

  /**
   * The instance registered for `idx`: itself when it has no configuration
   * file; after `LoadFromSavedConfiguration` (whether or not that threw) when
   * it has one; `None` when the file does not parse.
   */
  function Registered(idx: Indexer, env: Environment): (r: Option<Indexer>)
    ensures ConfigFilePath(env.dir, idx.id) !in env.files ==> r == Some(idx)
    ensures r.None? <==> ConfigFilePath(env.dir, idx.id) in env.files
                         && env.parse(env.files[ConfigFilePath(env.dir, idx.id)]).None?
    ensures var path := ConfigFilePath(env.dir, idx.id);
      path in env.files && env.parse(env.files[path]).Some? ==> r == Some(env.loadSaved(idx, env.parse(env.files[path]).value))
  {
    var path := ConfigFilePath(env.dir, idx.id);
    if path !in env.files then Some(idx)
    else match env.parse(env.files[path])
      case None => None
      case Some(json) => Some(env.loadSaved(idx, json))
  }

  /**
   * `InitIndexers`' loop from position `i` of the sorted indexers on, where
   * `register` gives the instance to register for an indexer, or `None` when
   * reading its configuration aborts the loop.
   */
  function InitFrom(pending: seq<Indexer>, i: nat, indexers: map<string, Indexer>, order: seq<string>,
                    register: Indexer -> Option<Indexer>): (r: InitState)
    requires i <= |pending|
    decreases |pending| - i
  {
    if i == |pending| then InitState(indexers, order, None)
    else
      var idx := pending[i];
      if idx.id in indexers then InitState(indexers, order, Some(DuplicateKey(idx.id)))
      else match register(idx)
        case None => InitState(indexers[idx.id := idx], order + [idx.id], Some(UnreadableConfig(idx.id)))
        case Some(loaded) => InitFrom(pending, i + 1, indexers[idx.id := loaded], order + [idx.id], register)
  }

  /** The whole of `InitIndexers`: the discovered indexers in display-name order, registered one by one. */
  function Init(available: seq<Indexer>, indexers: map<string, Indexer>, order: seq<string>, env: Environment): InitState {
    InitFrom(Sort(available, ByDisplayName), 0, indexers, order, idx => Registered(idx, env))
  }

  /** The dictionary's keys are exactly the order's entries, each once. */
  ghost predicate KeyOrder(indexers: map<string, Indexer>, order: seq<string>) {
    && (forall k :: k in indexers <==> k in order)
    && (forall i, j :: 0 <= i < j < |order| ==> order[i] != order[j])
  }

  lemma InitStep(pending: seq<Indexer>, i: nat, indexers: map<string, Indexer>, order: seq<string>,
                 register: Indexer -> Option<Indexer>, loaded: Indexer)
    requires i < |pending|
    requires pending[i].id !in indexers && register(pending[i]) == Some(loaded)
    ensures InitFrom(pending, i, indexers, order, register)
            == InitFrom(pending, i + 1, indexers[pending[i].id := loaded], order + [pending[i].id], register)
  {
  }

  lemma KeyOrderAdd(indexers: map<string, Indexer>, order: seq<string>, key: string, v: Indexer)
    requires KeyOrder(indexers, order) && key !in indexers
    ensures KeyOrder(indexers[key := v], order + [key])
  {
  }

  /** Init completes exactly when no ID repeats (or was already registered) and every configuration is read. */
  lemma {:induction false} InitFromCompletes(pending: seq<Indexer>, i: nat, indexers: map<string, Indexer>,
                                             order: seq<string>, register: Indexer -> Option<Indexer>)
    requires i <= |pending|
    decreases |pending| - i
    ensures InitFrom(pending, i, indexers, order, register).error.None? <==>
      && (forall j :: i <= j < |pending| ==> pending[j].id !in indexers)
      && (forall j, k :: i <= j < k < |pending| ==> pending[j].id != pending[k].id)
      && (forall j :: i <= j < |pending| ==> register(pending[j]).Some?)
  {
    if i < |pending| && pending[i].id !in indexers && register(pending[i]).Some? {
      var idx := pending[i];
      InitFromCompletes(pending, i + 1, indexers[idx.id := register(idx).value], order + [idx.id], register);
    }
  }

  /** Init never overwrites an entry, keeps the dictionary and its key order in step, and only appends keys. */
  lemma {:induction false} InitFromKeepsEntries(pending: seq<Indexer>, i: nat, indexers: map<string, Indexer>,
                                                order: seq<string>, register: Indexer -> Option<Indexer>)
    requires i <= |pending|
    requires KeyOrder(indexers, order)
    decreases |pending| - i
    ensures var r := InitFrom(pending, i, indexers, order, register);
      && KeyOrder(r.indexers, r.order)
      && |order| <= |r.order| && r.order[..|order|] == order
      && (forall k :: k in indexers ==> k in r.indexers && r.indexers[k] == indexers[k])
  {
    if i < |pending| && pending[i].id !in indexers {
      var idx := pending[i];
      var order' := order + [idx.id];
      assert order'[..|order|] == order;
      match register(idx)
      case None =>
        KeyOrderAdd(indexers, order, idx.id, idx);
      case Some(loaded) =>
        KeyOrderAdd(indexers, order, idx.id, loaded);
        InitFromKeepsEntries(pending, i + 1, indexers[idx.id := loaded], order', register);
        var r' := InitFrom(pending, i + 1, indexers[idx.id := loaded], order', register);
        assert r'.order[..|order|] == r'.order[..|order'|][..|order|];
    }
  }

  /** A completed init registers every remaining indexer, in order, under its ID. */
  lemma {:induction false} InitFromRegisters(pending: seq<Indexer>, i: nat, indexers: map<string, Indexer>,
                                             order: seq<string>, register: Indexer -> Option<Indexer>)
    requires i <= |pending|
    requires forall j :: i <= j < |pending| ==> pending[j].id !in indexers
    requires forall j, k :: i <= j < k < |pending| ==> pending[j].id != pending[k].id
    requires forall j :: i <= j < |pending| ==> register(pending[j]).Some?
    decreases |pending| - i
    ensures var r := InitFrom(pending, i, indexers, order, register);
      && r.error.None?
      && r.order == order + Ids(pending[i..])
      && (forall j :: i <= j < |pending| ==> pending[j].id in r.indexers)
      && (forall j :: i <= j < |pending| ==> r.indexers[pending[j].id] == register(pending[j]).value)
  {
    if i < |pending| {
      var idx := pending[i];
      var loaded := register(idx).value;
      var indexers' := indexers[idx.id := loaded];
      InitFromRegisters(pending, i + 1, indexers', order + [idx.id], register);
      InitFromEntryKept(pending, i + 1, indexers', order + [idx.id], register, idx.id);
      assert Ids(pending[i..]) == [idx.id] + Ids(pending[i + 1..]);
    }
  }

  /** An entry present before a step is still there afterwards. */
  lemma {:induction false} InitFromEntryKept(pending: seq<Indexer>, i: nat, indexers: map<string, Indexer>,
                                             order: seq<string>, register: Indexer -> Option<Indexer>, key: string)
    requires i <= |pending|
    requires key in indexers
    decreases |pending| - i
    ensures var r := InitFrom(pending, i, indexers, order, register);
      key in r.indexers && r.indexers[key] == indexers[key]
  {
    if i < |pending| && pending[i].id !in indexers && register(pending[i]).Some? {
      var idx := pending[i];
      InitFromEntryKept(pending, i + 1, indexers[idx.id := register(idx).value], order + [idx.id], register, key);
    }
  }

  /**
   * Init on an empty registry: the indexers are taken in display-name order,
   * init completes exactly when their IDs are distinct and every existing
   * configuration file parses, and then each is registered under its ID in
   * that order, loaded from its file when it has one.
   */
  lemma InitOnEmptyRegistry(available: seq<Indexer>, env: Environment)
    ensures var sorted := Sort(available, ByDisplayName);
      && SortedBy(sorted, ByDisplayName)
      && multiset(sorted) == multiset(available)
      && KeyOrder(Init(available, map[], [], env).indexers, Init(available, map[], [], env).order)
      && (Init(available, map[], [], env).error.None? <==>
            && (forall j, k :: 0 <= j < k < |sorted| ==> sorted[j].id != sorted[k].id)
            && (forall j :: 0 <= j < |sorted| ==> Registered(sorted[j], env).Some?))
  {
    var sorted := Sort(available, ByDisplayName);
    ByDisplayNameTotal();
    SortIsOrderedPermutation(available, ByDisplayName);
    InitFromCompletes(sorted, 0, map[], [], idx => Registered(idx, env));
    InitFromKeepsEntries(sorted, 0, map[], [], idx => Registered(idx, env));
  }

  /** A completed init from an empty registry holds every pending indexer, in order, under its ID. */
  lemma InitFromEmpty(pending: seq<Indexer>, register: Indexer -> Option<Indexer>)
    requires InitFrom(pending, 0, map[], [], register).error.None?
    ensures var r := InitFrom(pending, 0, map[], [], register);
      && r.order == Ids(pending)
      && (forall j :: 0 <= j < |pending| ==> register(pending[j]).Some?)
      && (forall j :: 0 <= j < |pending| ==> pending[j].id in r.indexers)
      && (forall j :: 0 <= j < |pending| ==> r.indexers[pending[j].id] == register(pending[j]).value)
  {
    InitFromCompletes(pending, 0, map[], [], register);
    InitFromRegisters(pending, 0, map[], [], register);
    assert pending[0..] == pending;
  }

  lemma InitOnEmptyRegistryEntries(available: seq<Indexer>, env: Environment)
    requires Init(available, map[], [], env).error.None?
    ensures var sorted := Sort(available, ByDisplayName);
      var r := Init(available, map[], [], env);
      && r.order == Ids(sorted)
      && (forall j :: 0 <= j < |sorted| ==> Registered(sorted[j], env).Some?)
      && (forall j :: 0 <= j < |sorted| ==> sorted[j].id in r.indexers)
      && (forall j :: 0 <= j < |sorted| ==> r.indexers[sorted[j].id] == Registered(sorted[j], env).value)
  {
    InitFromEmpty(Sort(available, ByDisplayName), idx => Registered(idx, env));
  }

  /** Writing one indexer's configuration leaves every other indexer's file as it was. */
  lemma SaveLeavesOtherConfigs(dir: string, files: map<string, string>, a: string, b: string, content: string)
    requires a == [] || a[0] != '/'
    requires b == [] || b[0] != '/'
    requires a != b
    ensures var written := files[ConfigFilePath(dir, a) := content];
      && (ConfigFilePath(dir, b) in written <==> ConfigFilePath(dir, b) in files)
      && (ConfigFilePath(dir, b) in files ==> written[ConfigFilePath(dir, b)] == files[ConfigFilePath(dir, b)])
  {
    if ConfigFilePath(dir, a) == ConfigFilePath(dir, b) {
      ConfigFilePathInjective(dir, a, b);
    }
  }

  const NoResultsMessage := "Found no results while trying to browse this tracker"

  /**
   * `TestIndexer`'s decision: the lookup's error, the browse query's error,
   * an error when the cleaned results are empty, or the cleaned results.
   */
  function BrowseOutcome(lookup: Result<Indexer>, perform: (Indexer, Query) -> Result<seq<Release>>,
                         clean: (Indexer, seq<Release>) -> seq<Release>): (r: Result<seq<Release>>)
    ensures lookup.Err? ==> r == Err(lookup.error)
    ensures lookup.Ok? && perform(lookup.value, BrowseQuery).Err? ==> r == Err(perform(lookup.value, BrowseQuery).error)
    ensures lookup.Ok? && perform(lookup.value, BrowseQuery).Ok? ==>
      var cleaned := clean(lookup.value, perform(lookup.value, BrowseQuery).value);
      (cleaned == [] ==> r == Err(NoResultsMessage)) && (cleaned != [] ==> r == Ok(cleaned))
    ensures r.Ok? ==> r.value != []
  {
    match lookup
    case Err(e) => Err(e)
    case Ok(indexer) =>
      match perform(indexer, BrowseQuery)
      case Err(e) => Err(e)
      case Ok(results) =>
        var cleaned := clean(indexer, results);
        if |cleaned| == 0 then Err(NoResultsMessage) else Ok(cleaned)
  }

  /** The registry service, over the files and directories it touches. */
  class IndexerManager {
    const configDir: string
    /** `container.Resolve<IEnumerable<IIndexer>>()`: every indexer the container knows. */
    const available: seq<Indexer>
    /** `container.ResolveNamed<IIndexer>(id)`: a fresh instance per registered ID. */
    const container: map<string, Indexer>
    const cacheService: CacheService
    var indexers: map<string, Indexer>
    /** The dictionary's enumeration order: keys in the order they were added. */
    var order: seq<string>
    var files: map<string, string>
    var dirs: set<string>

    /** The container hands out unconfigured instances carrying the ID asked for. */
    ghost predicate FreshInstances() {
      forall id :: id in container ==> container[id].id == id && !container[id].configured
    }

    ghost predicate Valid()
      reads this
    {
      KeyOrder(indexers, order) && FreshInstances()
    }

    constructor(configDir: string, available: seq<Indexer>, container: map<string, Indexer>,
                cacheService: CacheService, files: map<string, string>, dirs: set<string>)
      requires forall id :: id in container ==> container[id].id == id && !container[id].configured
      ensures Valid()
      ensures this.configDir == configDir && this.available == available && this.container == container
      ensures this.cacheService == cacheService && this.files == files && this.dirs == dirs
      ensures indexers == map[] && order == []
    {
      this.configDir := configDir;
      this.available := available;
      this.container := container;
      this.cacheService := cacheService;
      this.files := files;
      this.dirs := dirs;
      indexers := map[];
      order := [];
    }

    /** `InitIndexers`: registers the discovered indexers and loads their saved configurations. */
    method InitIndexers(parse: string -> Option<CD.JArray>, loadSaved: (Indexer, CD.JArray) -> Indexer)
      returns (error: Option<InitError>)
      requires Valid()
      modifies this
      ensures Valid()
      ensures files == old(files) && dirs == old(dirs)
      ensures InitState(indexers, order, error)
              == Init(available, old(indexers), old(order), Environment(configDir, files, parse, loadSaved))
    {
      var env := Environment(configDir, files, parse, loadSaved);
      ghost var register := idx => Registered(idx, env);
      var pending := Sort(available, ByDisplayName);
      var i := 0;
      while i < |pending|
        invariant 0 <= i <= |pending|
        invariant Valid() && files == old(files) && dirs == old(dirs)
        invariant InitFrom(pending, i, indexers, order, register) == InitFrom(pending, 0, old(indexers), old(order), register)
      {
        var idx := pending[i];
        if idx.id in indexers {
          return Some(DuplicateKey(idx.id));
        }
        var loaded := idx;
        var path := ConfigFilePath(configDir, idx.id);
        if path in files {
          var json := parse(files[path]);
          if json.None? {
            KeyOrderAdd(indexers, order, idx.id, idx);
            indexers := indexers[idx.id := idx];
            order := order + [idx.id];
            return Some(UnreadableConfig(idx.id));
          }
          // A failing load is caught and logged; the registered instance keeps
          // whatever state the load left it in.
          loaded := loadSaved(idx, json.value);
        }
        assert register(idx) == Some(loaded);
        InitStep(pending, i, indexers, order, register, loaded);
        KeyOrderAdd(indexers, order, idx.id, loaded);
        indexers := indexers[idx.id := loaded];
        order := order + [idx.id];
        i := i + 1;
      }
      return None;
    }

    /** `GetIndexer`: the registered instance, or the "Unknown indexer" exception. */
    function GetIndexer(name: string): (r: Result<Indexer>)
      reads this
      ensures r.Ok? <==> name in indexers
      ensures r.Ok? ==> r.value == indexers[name]
      ensures r.Err? ==> r.error == "Unknown indexer: " + name
    {
      if name in indexers then Ok(indexers[name]) else Err("Unknown indexer: " + name)
    }

    /** `GetAllIndexers`: the dictionary's values in its enumeration order. */
    function GetAllIndexers(): (r: seq<Indexer>)
      reads this
      requires Valid()
      ensures |r| == |order|
      ensures forall i :: 0 <= i < |order| ==> r[i] == indexers[order[i]]
    {
      seq(|order|, i requires 0 <= i < |order| reads this requires Valid() => indexers[order[i]])
    }

    /** `TestIndexer`: browse the tracker; an empty cleaned result is an error, otherwise it is cached. */
    method TestIndexer(name: string, perform: (Indexer, Query) -> Result<seq<Release>>,
                       clean: (Indexer, seq<Release>) -> seq<Release>)
      returns (r: Outcome)
      modifies cacheService
      ensures var b := BrowseOutcome(GetIndexer(name), perform, clean);
        && (b.Ok? ==> r == Pass && cacheService.entries == old(cacheService.entries)[indexers[name].id := b.value])
        && (b.Err? ==> r == Fail(b.error) && cacheService.entries == old(cacheService.entries))
    {
      var lookup := GetIndexer(name);
      if lookup.Err? {
        return Fail(lookup.error);
      }
      var indexer := lookup.value;
      var response := perform(indexer, BrowseQuery);
      if response.Err? {
        return Fail(response.error);
      }
      var results := clean(indexer, response.value);
      if |results| == 0 {
        return Fail(NoResultsMessage);
      }
      cacheService.CacheRssResults(indexer, results);
      return Pass;
    }

    /**
     * `DeleteIndexer`: an unknown name throws before anything changes; otherwise
     * the configuration file goes and the entry is replaced by a fresh instance
     * (resolving it throws, after the deletion, when the ID is not registered).
     */
    method DeleteIndexer(name: string) returns (r: Outcome)
      requires Valid()
      modifies this
      ensures Valid()
      ensures order == old(order) && dirs == old(dirs)
      ensures name !in old(indexers) ==>
        r == Fail("Unknown indexer: " + name) && indexers == old(indexers) && files == old(files)
      ensures name in old(indexers) ==>
        var id := old(indexers)[name].id;
        && files == old(files) - {ConfigFilePath(configDir, id)}
        && (id in container ==> r == Pass && indexers == old(indexers)[name := container[id]])
        && (id !in container ==> r.Fail? && indexers == old(indexers))
      ensures r.Pass? ==> name in indexers && !indexers[name].configured
    {
      var lookup := GetIndexer(name);
      if lookup.Err? {
        return Fail(lookup.error);
      }
      var indexer := lookup.value;
      files := files - {ConfigFilePath(configDir, indexer.id)};
      if indexer.id !in container {
        return Fail("The requested service '" + indexer.id + "' has not been registered.");
      }
      indexers := indexers[name := container[indexer.id]];
      return Pass;
    }

    /** `SaveConfig`: creates the directory if needed and writes `<dir>/<ID>.json`, nothing else. */
    method SaveConfig(indexer: Indexer, content: string)
      modifies this
      ensures dirs == old(dirs) + {configDir}
      ensures files == old(files)[ConfigFilePath(configDir, indexer.id) := content]
      ensures indexers == old(indexers) && order == old(order)
    {
      var path := ConfigFilePath(configDir, indexer.id);
      if configDir !in dirs {
        dirs := dirs + {configDir};
      }
      files := files[path := content];
    }
  }
}
