/**
 * Finding Apps and wiring dependencies (lib/config.py:428-530): `app` returns the first
 * listed App whose source contains the filter, or downloads, checks and creates one;
 * `subscribe` finds or creates every dependency, records a subscription per entry, asks
 * dependencies that are not yet installed to install, and reports whether all of them are.
 */
module Discovery {
  import opened Wrappers
  import opened Documents
  import opened Sources
  import opened Apps
  import opened Downloads

  /** No two Apps share a name, as in the cluster. */
  predicate UniqueNames(apps: seq<App>) {
    forall i, j :: 0 <= i < j < |apps| ==> apps[i].name != apps[j].name
  }

  /** `app["spec"]["source"]`, when the spec has one. */
  function SourceOf(app: App): Option<Value> {
    if app.SpecHas("source") then Some(app.spec.entries["source"]) else None
  }

  /** The listing loop of lines 432-441 from position `i`: the first match, or the first App that raises. */
  function SearchFrom(apps: seq<App>, filter: Source, i: nat): (r: Result<Option<nat>, Err>)
    requires i <= |apps|
    ensures r.Success? && r.value.Some? ==> i <= r.value.value < |apps| &&
                                            MatchApp(filter, SourceOf(apps[r.value.value])) == Success(true)
    ensures r.Success? ==> forall j :: i <= j < (if r.value.Some? then r.value.value else |apps|) ==>
                                         MatchApp(filter, SourceOf(apps[j])) == Success(false)
    ensures r.Failure? ==> exists j :: i <= j < |apps| && MatchApp(filter, SourceOf(apps[j])).Failure?
    decreases |apps| - i
  {
    if i == |apps| then Success(None)
    else match MatchApp(filter, SourceOf(apps[i]))
      case Failure(e) => Failure(e)
      case Success(found) => if found then Success(Some(i)) else SearchFrom(apps, filter, i + 1)
  }

  /** The App a source describes, downloaded, checked and stamped (lines 443-481); it is not yet stored. */
  function Created(filter: Source, action: Action, fetch: string -> Response): (r: Result<App, Err>)
    ensures r.Success? ==> r.value.status == Some(Discovered) && r.value.action == Some(action)
    ensures r.Success? <==>
            Resolve(filter).Success? &&
            var response := fetch(Resolve(filter).value);
            response.code == 200 && |response.documents| == 1 && WellShaped(response.documents[0]) &&
            NewApp(response.documents[0], action).Success?
    ensures r.Success? ==> r.value == NewApp(fetch(Resolve(filter).value).documents[0], action).value
  {
    var url :- Resolve(filter);
    var response := fetch(url);
    if response.code != 200 then Failure(FetchFailed(url, response.code))
    else
      var doc :- LoadOne(response.documents);
      var _ :- CheckDescriptor(doc);
      NewApp(doc, action)
  }

  /**
   * `app(source, action)`: the Apps afterwards, and the App found or created, or why it raised.
   * The App found is printed with its `spec.source` (line 440), which raises when it has none.
   */
  function FindOrCreate(apps: seq<App>, filter: Source, action: Action, fetch: string -> Response): (seq<App>, Result<App, Err>) {
    match SearchFrom(apps, filter, 0)
    case Failure(e) => (apps, Failure(e))
    case Success(found) =>
      if found.Some? then
        if SourceOf(apps[found.value]).None? then (apps, Failure(MissingKey("source")))
        else (apps, Success(apps[found.value]))
      else CreateApp(apps, Created(filter, action, fetch))
  }

  /** `pykube.App(self.kube, obj).create()` (line 482): a name already taken is refused. */
  function CreateApp(apps: seq<App>, created: Result<App, Err>): (r: (seq<App>, Result<App, Err>))
    ensures r.1.Success? <==> created.Success? && IndexOfName(apps, created.value.name).None?
    ensures r.1.Success? ==> r == (apps + [created.value], created)
    ensures r.1.Failure? ==> r.0 == apps
  {
    match created
    case Failure(e) => (apps, Failure(e))
    case Success(app) =>
      if IndexOfName(apps, app.name).Some? then (apps, Failure(AlreadyExists(app.name)))
      else (apps + [app], Success(app))
  }

  /** `pykube.App(self.kube, app).replace()`: the stored App of that name is overwritten. */
  function ReplaceApp(apps: seq<App>, app: App): (r: Result<seq<App>, Err>)
    ensures r.Success? <==> IndexOfName(apps, app.name).Some?
    ensures r.Success? ==> r.value == apps[IndexOfName(apps, app.name).value := app]
  {
    match IndexOfName(apps, app.name)
    case None => Failure(NotFound("App", "", app.name))
    case Some(i) => Success(apps[i := app])
  }

  /** Apps are only ever added: every App keeps its position and name. */
  predicate Extends(before: seq<App>, after: seq<App>) {
    |before| <= |after| && forall i :: 0 <= i < |before| ==> after[i].name == before[i].name
  }

  /** An App in Error is never written. */
  predicate ErrorsKept(before: seq<App>, after: seq<App>) {
    |before| <= |after| && forall i :: 0 <= i < |before| && before[i].status == Some(Error) ==> after[i] == before[i]
  }

  /** What the store may go through while one App is being processed. */
  predicate Evolves(before: seq<App>, after: seq<App>) {
    UniqueNames(after) && Extends(before, after) && ErrorsKept(before, after)
  }

  lemma EvolvesTransitive(a: seq<App>, b: seq<App>, c: seq<App>)
    requires Evolves(a, b) && Evolves(b, c)
    ensures Evolves(a, c)
  {
  }

  // ---------------------------------------------------------------------------
  // what find-or-create promises

  /**
   * The first App whose source the filter matches is returned, and nothing is created; an
   * App matched by the empty filter that has no source makes the print raise instead.
   */
  lemma FindReturnsFirstMatch(apps: seq<App>, filter: Source, action: Action, fetch: string -> Response, i: nat)
    requires i < |apps| && MatchApp(filter, SourceOf(apps[i])) == Success(true)
    requires forall j :: 0 <= j < i ==> MatchApp(filter, SourceOf(apps[j])) == Success(false)
    ensures FindOrCreate(apps, filter, action, fetch) ==
            (apps, if SourceOf(apps[i]).Some? then Success(apps[i]) else Failure(MissingKey("source")))
    ensures filter != map[] ==> FindOrCreate(apps, filter, action, fetch) == (apps, Success(apps[i]))
  {
    SearchFromFirst(apps, filter, 0, i);
  }

  lemma {:induction false} SearchFromFirst(apps: seq<App>, filter: Source, k: nat, i: nat)
    requires k <= i < |apps| && MatchApp(filter, SourceOf(apps[i])) == Success(true)
    requires forall j :: k <= j < i ==> MatchApp(filter, SourceOf(apps[j])) == Success(false)
    ensures SearchFrom(apps, filter, k) == Success(Some(i))
    decreases i - k
  {
    if k < i {
      SearchFromFirst(apps, filter, k + 1, i);
    }
  }

  /**
   * An empty filter matches every App, so it finds the first listed App whenever there is
   * one, and raises when that App has no source.
   */
  lemma EmptyFilterFindsFirst(apps: seq<App>, action: Action, fetch: string -> Response)
    requires apps != []
    ensures FindOrCreate(apps, map[], action, fetch) ==
            (apps, if SourceOf(apps[0]).Some? then Success(apps[0]) else Failure(MissingKey("source")))
  {
    FindReturnsFirstMatch(apps, map[], action, fetch, 0);
  }

  /**
   * Only when no App matches is one created: it is appended, stamped with the action and
   * status Discovered; a name already taken makes the create fail.
   */
  lemma CreateWhenNoMatch(apps: seq<App>, filter: Source, action: Action, fetch: string -> Response)
    requires forall j :: 0 <= j < |apps| ==> MatchApp(filter, SourceOf(apps[j])) == Success(false)
    ensures var (after, r) := FindOrCreate(apps, filter, action, fetch);
            r.Success? <==> Created(filter, action, fetch).Success? &&
                            IndexOfName(apps, Created(filter, action, fetch).value.name).None?
  {
    assert SearchFrom(apps, filter, 0) == Success(None);
  }

  /**
   * An App created because none matched is appended, stamped with the action and status
   * Discovered; when the create fails, the Apps are left as they were.
   */
  lemma CreatedIsAppended(apps: seq<App>, filter: Source, action: Action, fetch: string -> Response)
    requires forall j :: 0 <= j < |apps| ==> MatchApp(filter, SourceOf(apps[j])) == Success(false)
    ensures var (after, r) := FindOrCreate(apps, filter, action, fetch);
            (r.Success? ==> after == apps + [r.value] && r.value.status == Some(Discovered) && r.value.action == Some(action)) &&
            (r.Failure? ==> after == apps)
  {
    assert SearchFrom(apps, filter, 0) == Success(None);
  }

  /** Finding or creating keeps the store's invariants, and the App returned is stored. */
  lemma FindOrCreateEvolves(apps: seq<App>, filter: Source, action: Action, fetch: string -> Response)
    requires UniqueNames(apps)
    ensures var (after, r) := FindOrCreate(apps, filter, action, fetch);
            Evolves(apps, after) && (r.Success? ==> r.value in after) &&
            (after == apps || (r.Success? && after == apps + [r.value]))
  {
    var (after, r) := FindOrCreate(apps, filter, action, fetch);
    if after != apps {
      assert IndexOfName(apps, r.value.name).None?;
    }
  }

  /**
   * A created App need not match the filter that created it: a descriptor whose own
   * `spec.source` names another repository is created, yet the next search with the same
   * filter finds nothing, fetches the same descriptor again and fails on the taken name.
   */
  lemma CreatedNeedNotMatch(fetch: string -> Response)
    requires fetch(Resolve(OTHER_FILTER).value) == Response(200, [OTHER_DESCRIPTOR])
    ensures var (first, created) := FindOrCreate([], OTHER_FILTER, Install, fetch);
            created.Success? && first == [created.value] &&
            FindOrCreate(first, OTHER_FILTER, Install, fetch) == (first, Failure(AlreadyExists("b")))
  {
    var filter := OTHER_FILTER;
    var app := OtherCreated(fetch);
    assert MatchApp(filter, SourceOf(app)) == Success(false) by {
      MatchNeedsEveryKey(filter, map["repo" := Str("x/y")], "site");
    }
    assert SearchFrom([app], filter, 1) == Success(None);
    assert SearchFrom([app], filter, 0) == Success(None);
  }

  /** The filter of the example above: a GitHub repository. */
  const OTHER_FILTER: Source := map["site" := Str(GITHUB), "repo" := Str("a/b")]

  /** The descriptor of the example above: an App `b` whose own source names another repository. */
  const OTHER_DESCRIPTOR: Value :=
    Dict(map["apiVersion" := Str(API_VERSION), "kind" := Str(APP_KIND),
             "metadata" := Dict(map["name" := Str("b")]),
             "spec" := Dict(map["source" := Dict(map["repo" := Str("x/y")])])])

  lemma OtherCreated(fetch: string -> Response) returns (app: App)
    requires fetch(Resolve(OTHER_FILTER).value) == Response(200, [OTHER_DESCRIPTOR])
    ensures Created(OTHER_FILTER, Install, fetch) == Success(app)
    ensures app.name == "b" && SourceOf(app) == Some(Dict(map["repo" := Str("x/y")]))
  {
    assert Resolve(OTHER_FILTER).Success?;
    app := OtherApp();
  }

  lemma OtherApp() returns (app: App)
    ensures WellShaped(OTHER_DESCRIPTOR) && NewApp(OTHER_DESCRIPTOR, Install) == Success(app)
    ensures app.name == "b" && SourceOf(app) == Some(Dict(map["repo" := Str("x/y")]))
  {
    assert OTHER_DESCRIPTOR.entries.Keys == DESCRIPTOR_KEYS;
    app := NewApp(OTHER_DESCRIPTOR, Install).value;
  }

  // ---------------------------------------------------------------------------
  // source and subscribe (lines 486-530)

  /**
   * The dependency one `spec.subscribe` entry names: `subscribe["source"]` is read, then
   * `obj["action"]`, and the App is found or created with them.
   */
  function Dependency(apps: seq<App>, entry: Value, action: Option<Action>, fetch: string -> Response): (r: (seq<App>, Result<App, Err>))
    ensures r.1.Success? ==> action.Some?
  {
    match Get(entry, "source")
    case Failure(e) => (apps, Failure(e))
    case Success(source) =>
      if action.None? then (apps, Failure(MissingKey("action")))
      else match Fields(source, "source")
        case Failure(e) => (apps, Failure(e))
        case Success(filter) => FindOrCreate(apps, filter, action.value, fetch)
  }

  /**
   * A list or string as `subscribe["source"]`: an empty one visits no field, so it filters
   * nothing, as an empty mapping does, and the first App is the dependency (or the KeyError
   * of line 440); a non-empty one is refused.
   */
  lemma SequenceSources(apps: seq<App>, entry: Value, action: Action, fetch: string -> Response)
    requires Has(entry, "source") && (entry.entries["source"].List? || entry.entries["source"].Str?)
    ensures var source := entry.entries["source"];
            (source == List([]) || source == Str("")) ==>
              Dependency(apps, entry, Some(action), fetch) == FindOrCreate(apps, map[], action, fetch)
    ensures var source := entry.entries["source"];
            (source == List([]) || source == Str("")) && apps != [] && SourceOf(apps[0]).Some? ==>
              Dependency(apps, entry, Some(action), fetch) == (apps, Success(apps[0]))
    ensures var source := entry.entries["source"];
            source != List([]) && source != Str("") ==>
              Dependency(apps, entry, Some(action), fetch) == (apps, Failure(WrongType("source")))
  {
    if apps != [] {
      EmptyFilterFindsFirst(apps, action, fetch);
    }
  }

  /**
   * The sourcing loop from the front: each dependency is found or created, then printed with
   * its `spec.source` (line 496), which raises when it has none; the first failure stops it.
   */
  function SourceAll(apps: seq<App>, entries: seq<Value>, action: Option<Action>, fetch: string -> Response): (seq<App>, Result<(), Err>)
    decreases |entries|
  {
    if entries == [] then (apps, Success(()))
    else
      var (found, dep) := Dependency(apps, entries[0], action, fetch);
      if dep.Failure? then (found, Failure(dep.error))
      else if SourceOf(dep.value).None? then (found, Failure(MissingKey("source")))
      else SourceAll(found, entries[1..], action, fetch)
  }

  /** `source(obj)`: every dependency of the App exists afterwards, found or created. */
  function Sourcing(obj: App, apps: seq<App>, fetch: string -> Response): (seq<App>, Result<(), Err>) {
    if !obj.SpecHas("subscribe") then (apps, Success(()))
    else match obj.spec.entries["subscribe"]
      case List(entries) => SourceAll(apps, entries, obj.action, fetch)
      case _ => (apps, Failure(WrongType("subscribe")))
  }

  /** A dependency is asked to install when its subscriber installs and it is neither installed nor in error. */
  predicate Asks(action: Action, dep: App) {
    action == Install && dep.status != Some(Installed) && dep.status != Some(Error)
  }

  /** One dependency's outcome: the Apps afterwards, and the subscription recorded with the App it names. */
  datatype Step = Step(apps: seq<App>, result: Result<(Subscription, App), Err>)

  /**
   * One pass of the loop of lines 504-528: find or create the dependency, then record it.
   */
  function SubscribeOne(apps: seq<App>, entry: Value, action: Option<Action>, fetch: string -> Response): Step {
    var (found, dep) := Dependency(apps, entry, action, fetch);
    if dep.Failure? then Step(found, Failure(dep.error))
    else if action.None? then Step(found, Failure(MissingKey("action")))
    else Record(found, entry, action.value, dep.value)
  }

  /**
   * Lines 508-526 once the dependency is known: read its status, ask it to install when it
   * should, then read the entry's `name` and `project`.
   */
  function Record(apps: seq<App>, entry: Value, action: Action, dep: App): Step {
    if dep.status.None? then Step(apps, Failure(MissingKey("status")))
    else
      var replaced := if Asks(action, dep) then ReplaceApp(apps, dep.(action := Some(Install))) else Success(apps);
      if replaced.Failure? then Step(apps, Failure(replaced.error))
      else match Get(entry, "name")
        case Failure(e) => Step(replaced.value, Failure(e))
        case Success(name) =>
          match Get(entry, "project")
          case Failure(e) => Step(replaced.value, Failure(e))
          case Success(project) => Step(replaced.value, Success((Subscription(name, dep.name, project), dep)))
  }

  /**
   * What subscribing leaves: the Apps, the subscriptions recorded (a prefix of the entries
   * when it failed), the dependency behind each, whether all were installed, and the outcome.
   */
  datatype Subscribed = Subscribed(apps: seq<App>, subscriptions: seq<Subscription>, deps: seq<App>,
                                   all: bool, result: Result<(), Err>)

  function SubscribeAll(apps: seq<App>, entries: seq<Value>, action: Option<Action>, fetch: string -> Response): (r: Subscribed)
    ensures |r.subscriptions| == |r.deps| <= |entries|
    ensures r.result.Success? ==> |r.subscriptions| == |entries|
    decreases |entries|
  {
    if entries == [] then Subscribed(apps, [], [], true, Success(()))
    else
      var step := SubscribeOne(apps, entries[0], action, fetch);
      match step.result
      case Failure(e) => Subscribed(step.apps, [], [], true, Failure(e))
      case Success((subscription, dep)) =>
        var rest := SubscribeAll(step.apps, entries[1..], action, fetch);
        rest.(subscriptions := [subscription] + rest.subscriptions, deps := [dep] + rest.deps,
              all := dep.status == Some(Installed) && rest.all)
  }

  /** `subscribe(obj)`: the App with its new subscriptions list, and the loop's outcome. */
  function Subscribing(obj: App, apps: seq<App>, fetch: string -> Response): (App, Subscribed) {
    if !obj.SpecHas("subscribe") then (obj, Subscribed(apps, [], [], true, Success(())))
    else
      var r := match obj.spec.entries["subscribe"]
               case List(entries) => SubscribeAll(apps, entries, obj.action, fetch)
               case _ => Subscribed(apps, [], [], true, Failure(WrongType("subscribe")));
      (obj.(subscriptions := Some(r.subscriptions)), r)
  }

  /** Subscription `k` records entry `k`'s name and project and the name of the App found for it. */
  predicate Records(entries: seq<Value>, subscriptions: seq<Subscription>, deps: seq<App>) {
    |subscriptions| == |entries| && |deps| == |entries| &&
    forall k :: 0 <= k < |entries| ==>
      Has(entries[k], "name") && Has(entries[k], "project") &&
      subscriptions[k] == Subscription(entries[k].entries["name"], deps[k].name, entries[k].entries["project"])
  }

  /** The App called `name` has been asked to install. */
  predicate Installing(apps: seq<App>, name: string) {
    IndexOfName(apps, name).Some? && apps[IndexOfName(apps, name).value].action == Some(Install)
  }

  /** An App asked to install stays asked. */
  predicate KeepsInstalls(before: seq<App>, after: seq<App>) {
    |before| <= |after| && forall i :: 0 <= i < |before| && before[i].action == Some(Install) ==> after[i].action == Some(Install)
  }

  // ---------------------------------------------------------------------------
  // what subscribing promises

  /** In a store with unique names, an App's name finds that App. */
  lemma NameFindsApp(apps: seq<App>, i: nat)
    requires UniqueNames(apps) && i < |apps|
    ensures IndexOfName(apps, apps[i].name) == Some(i)
  {
  }

  /** Writing an App back under the name it had keeps the names unique. */
  lemma ReplaceAt(apps: seq<App>, i: nat, app: App)
    requires UniqueNames(apps) && i < |apps| && app.name == apps[i].name
    ensures ReplaceApp(apps, app) == Success(apps[i := app]) && UniqueNames(apps[i := app])
  {
    NameFindsApp(apps, i);
  }

  lemma InstallingKept(before: seq<App>, after: seq<App>, name: string)
    requires UniqueNames(before) && Evolves(before, after) && KeepsInstalls(before, after) && Installing(before, name)
    ensures Installing(after, name)
  {
    var i := IndexOfName(before, name).value;
    NameFindsApp(after, i);
  }

  /** Finding a dependency only ever adds an App, and the App found is stored. */
  lemma DependencyEvolves(apps: seq<App>, entry: Value, action: Option<Action>, fetch: string -> Response)
    requires UniqueNames(apps)
    ensures var (after, dep) := Dependency(apps, entry, action, fetch);
            Evolves(apps, after) && KeepsInstalls(apps, after) && (dep.Success? ==> dep.value in after)
  {
    if Get(entry, "source").Success? && action.Some? && Fields(entry.entries["source"], "source").Success? {
      FindOrCreateEvolves(apps, Fields(entry.entries["source"], "source").value, action.value, fetch);
    }
  }

  /**
   * Recording a stored dependency keeps the store's invariants; one it asks to install is
   * stored with action Install, and only an App neither installed nor in error is rewritten.
   */
  lemma RecordEvolves(apps: seq<App>, entry: Value, action: Action, dep: App)
    requires UniqueNames(apps) && dep in apps
    ensures var step := Record(apps, entry, action, dep);
            Evolves(apps, step.apps) && KeepsInstalls(apps, step.apps) && IndexOfName(step.apps, dep.name).Some? &&
            (step.result.Success? ==> step.result.value.1 == dep && dep.status.Some? &&
                                      (Asks(action, dep) ==> Installing(step.apps, dep.name)))
  {
    var j :| 0 <= j < |apps| && apps[j] == dep;
    NameFindsApp(apps, j);
    var step := Record(apps, entry, action, dep);
    if dep.status.None? || !Asks(action, dep) {
      assert step.apps == apps;
    } else {
      var after := apps[j := dep.(action := Some(Install))];
      assert ReplaceApp(apps, dep.(action := Some(Install))) == Success(after);
      assert step.apps == after;
      assert UniqueNames(after) by {
        forall a, b | 0 <= a < b < |after| ensures after[a].name != after[b].name {
          assert after[a].name == apps[a].name && after[b].name == apps[b].name;
        }
      }
      assert Extends(apps, after) && ErrorsKept(apps, after) && KeepsInstalls(apps, after);
      NameFindsApp(after, j);
    }
  }

  /** One subscription step keeps the store's invariants, and a dependency it asks to install is asked. */
  lemma SubscribeOneEvolves(apps: seq<App>, entry: Value, action: Option<Action>, fetch: string -> Response)
    requires UniqueNames(apps)
    ensures var step := SubscribeOne(apps, entry, action, fetch);
            Evolves(apps, step.apps) && KeepsInstalls(apps, step.apps) &&
            (step.result.Success? ==> var dep := step.result.value.1;
                                      dep.status.Some? && IndexOfName(step.apps, dep.name).Some? &&
                                      (action.Some? && Asks(action.value, dep) ==> Installing(step.apps, dep.name)))
  {
    DependencyEvolves(apps, entry, action, fetch);
    var (found, dep) := Dependency(apps, entry, action, fetch);
    if dep.Success? {
      RecordEvolves(found, entry, action.value, dep.value);
      EvolvesTransitive(apps, found, Record(found, entry, action.value, dep.value).apps);
    }
  }

  /**
   * Subscribing keeps the store's invariants. Every dependency the loop got past is stored,
   * and when the subscriber installs, each one that was neither installed nor in error has
   * been asked to install.
   */
  lemma {:induction false} SubscribeAllEvolves(apps: seq<App>, entries: seq<Value>, action: Option<Action>, fetch: string -> Response)
    requires UniqueNames(apps)
    ensures var r := SubscribeAll(apps, entries, action, fetch);
            Evolves(apps, r.apps) && KeepsInstalls(apps, r.apps) && Found(r.apps, r.deps, action)
    decreases |entries|
  {
    if entries != [] {
      var step := SubscribeOne(apps, entries[0], action, fetch);
      SubscribeOneEvolves(apps, entries[0], action, fetch);
      if step.result.Success? {
        SubscribeAllEvolves(step.apps, entries[1..], action, fetch);
        EvolvesStep(apps, entries, action, fetch);
      } else {
        SubscribeAllStops(apps, entries, action, fetch);
      }
    }
  }

  /** Every dependency is stored, and asked to install when its subscriber installs and it is neither installed nor in error. */
  predicate Found(apps: seq<App>, deps: seq<App>, action: Option<Action>) {
    (forall k :: 0 <= k < |deps| ==> IndexOfName(apps, deps[k].name).Some?) &&
    (action == Some(Install) ==> forall k :: 0 <= k < |deps| && Asks(Install, deps[k]) ==> Installing(apps, deps[k].name))
  }

  /** One step of SubscribeAllEvolves. */
  lemma EvolvesStep(apps: seq<App>, entries: seq<Value>, action: Option<Action>, fetch: string -> Response)
    requires UniqueNames(apps) && entries != [] && SubscribeOne(apps, entries[0], action, fetch).result.Success?
    requires var step := SubscribeOne(apps, entries[0], action, fetch);
             var dep := step.result.value.1;
             Evolves(apps, step.apps) && KeepsInstalls(apps, step.apps) &&
             IndexOfName(step.apps, dep.name).Some? &&
             (action.Some? && Asks(action.value, dep) ==> Installing(step.apps, dep.name))
    requires var step := SubscribeOne(apps, entries[0], action, fetch);
             var rest := SubscribeAll(step.apps, entries[1..], action, fetch);
             Evolves(step.apps, rest.apps) && KeepsInstalls(step.apps, rest.apps) && Found(rest.apps, rest.deps, action)
    ensures var r := SubscribeAll(apps, entries, action, fetch);
            Evolves(apps, r.apps) && KeepsInstalls(apps, r.apps) && Found(r.apps, r.deps, action)
  {
    var step := SubscribeOne(apps, entries[0], action, fetch);
    var rest := SubscribeAll(step.apps, entries[1..], action, fetch);
    SubscribeAllCons(apps, entries, action, fetch);
    FoundCons(apps, step.apps, rest.apps, step.result.value.1, rest.deps, action);
  }

  /** The dependency found at the first step stays found and asked through the rest of the loop. */
  lemma FoundCons(apps: seq<App>, mid: seq<App>, after: seq<App>, dep: App, deps: seq<App>, action: Option<Action>)
    requires UniqueNames(apps) && Evolves(apps, mid) && KeepsInstalls(apps, mid)
    requires IndexOfName(mid, dep.name).Some? && (action.Some? && Asks(action.value, dep) ==> Installing(mid, dep.name))
    requires Evolves(mid, after) && KeepsInstalls(mid, after) && Found(after, deps, action)
    ensures Evolves(apps, after) && KeepsInstalls(apps, after) && Found(after, [dep] + deps, action)
  {
    EvolvesTransitive(apps, mid, after);
    var i := IndexOfName(mid, dep.name).value;
    assert after[i].name == dep.name;
    NameFindsApp(after, i);
    if action == Some(Install) && Asks(Install, dep) {
      InstallingKept(mid, after, dep.name);
    }
    FoundOne(after, dep, deps, action);
  }

  lemma FoundOne(apps: seq<App>, dep: App, deps: seq<App>, action: Option<Action>)
    requires IndexOfName(apps, dep.name).Some? && Found(apps, deps, action)
    requires action == Some(Install) && Asks(Install, dep) ==> Installing(apps, dep.name)
    ensures Found(apps, [dep] + deps, action)
  {
    var all := [dep] + deps;
    assert forall k :: 0 < k < |all| ==> all[k] == deps[k - 1];
  }

  /** The loop from the front: a step that gets through is followed by the rest of the loop. */
  lemma SubscribeAllCons(apps: seq<App>, entries: seq<Value>, action: Option<Action>, fetch: string -> Response)
    requires entries != [] && SubscribeOne(apps, entries[0], action, fetch).result.Success?
    ensures var step := SubscribeOne(apps, entries[0], action, fetch);
            var rest := SubscribeAll(step.apps, entries[1..], action, fetch);
            SubscribeAll(apps, entries, action, fetch) ==
              rest.(subscriptions := [step.result.value.0] + rest.subscriptions, deps := [step.result.value.1] + rest.deps,
                    all := step.result.value.1.status == Some(Installed) && rest.all)
  {
  }

  /** What the loop has recorded so far in front of what the rest of it records. */
  function After(subscriptions: seq<Subscription>, deps: seq<App>, all: bool, rest: Subscribed): Subscribed {
    rest.(subscriptions := subscriptions + rest.subscriptions, deps := deps + rest.deps, all := all && rest.all)
  }

  /** Before the loop, nothing is recorded. */
  lemma AfterNothing(r: Subscribed)
    ensures After([], [], true, r) == r
  {
    assert [] + r.subscriptions == r.subscriptions && [] + r.deps == r.deps;
  }

  /** After the last entry, what was recorded is the outcome. */
  lemma AfterAll(subscriptions: seq<Subscription>, deps: seq<App>, all: bool, apps: seq<App>,
                 action: Option<Action>, fetch: string -> Response)
    ensures After(subscriptions, deps, all, SubscribeAll(apps, [], action, fetch)) ==
            Subscribed(apps, subscriptions, deps, all, Success(()))
  {
    assert subscriptions + [] == subscriptions && deps + [] == deps;
  }

  /** Moving a recorded step from the rest of the loop to what has been recorded. */
  lemma AfterPrepend(subscriptions: seq<Subscription>, deps: seq<App>, all: bool,
                     subscription: Subscription, dep: App, rest: Subscribed)
    ensures After(subscriptions, deps, all,
                  rest.(subscriptions := [subscription] + rest.subscriptions, deps := [dep] + rest.deps,
                        all := dep.status == Some(Installed) && rest.all)) ==
            After(subscriptions + [subscription], deps + [dep], all && dep.status == Some(Installed), rest)
  {
    assert subscriptions + ([subscription] + rest.subscriptions) == subscriptions + [subscription] + rest.subscriptions;
    assert deps + ([dep] + rest.deps) == deps + [dep] + rest.deps;
  }

  /** The loop's state moves past the next entry when it gets through, from `before` to `after`. */
  lemma AfterCons(subscriptions: seq<Subscription>, deps: seq<App>, all: bool, before: seq<App>, after: seq<App>,
                  rest: seq<Value>, action: Option<Action>, fetch: string -> Response,
                  subscription: Subscription, dep: App)
    requires rest != [] && SubscribeOne(before, rest[0], action, fetch) == Step(after, Success((subscription, dep)))
    ensures After(subscriptions, deps, all, SubscribeAll(before, rest, action, fetch)) ==
            After(subscriptions + [subscription], deps + [dep], all && dep.status == Some(Installed),
                  SubscribeAll(after, rest[1..], action, fetch))
  {
    SubscribeAllCons(before, rest, action, fetch);
    AfterPrepend(subscriptions, deps, all, subscription, dep, SubscribeAll(after, rest[1..], action, fetch));
  }

  /** The loop's state at a step that fails is its outcome. */
  lemma AfterStops(subscriptions: seq<Subscription>, deps: seq<App>, all: bool, before: seq<App>, after: seq<App>,
                   rest: seq<Value>, action: Option<Action>, fetch: string -> Response, error: Err)
    requires rest != [] && SubscribeOne(before, rest[0], action, fetch) == Step(after, Failure(error))
    ensures After(subscriptions, deps, all, SubscribeAll(before, rest, action, fetch)) ==
            Subscribed(after, subscriptions, deps, all, Failure(error))
  {
    SubscribeAllStops(before, rest, action, fetch);
    assert subscriptions + [] == subscriptions && deps + [] == deps;
  }

  /** A step that fails ends the loop: nothing is recorded and the Apps are as the step left them. */
  lemma SubscribeAllStops(apps: seq<App>, entries: seq<Value>, action: Option<Action>, fetch: string -> Response)
    requires entries != [] && SubscribeOne(apps, entries[0], action, fetch).result.Failure?
    ensures var step := SubscribeOne(apps, entries[0], action, fetch);
            SubscribeAll(apps, entries, action, fetch) == Subscribed(step.apps, [], [], true, Failure(step.result.error))
  {
  }

  /** A step that gets through records the entry's name and project and the dependency's name. */
  lemma SubscribeOneRecords(apps: seq<App>, entry: Value, action: Option<Action>, fetch: string -> Response)
    requires SubscribeOne(apps, entry, action, fetch).result.Success?
    ensures var (subscription, dep) := SubscribeOne(apps, entry, action, fetch).result.value;
            Has(entry, "name") && Has(entry, "project") && dep.status.Some? &&
            subscription == Subscription(entry.entries["name"], dep.name, entry.entries["project"])
  {
  }

  lemma RecordsCons(entry: Value, subscription: Subscription, dep: App,
                    entries: seq<Value>, subscriptions: seq<Subscription>, deps: seq<App>)
    requires Has(entry, "name") && Has(entry, "project")
    requires subscription == Subscription(entry.entries["name"], dep.name, entry.entries["project"])
    requires Records(entries, subscriptions, deps)
    ensures Records([entry] + entries, [subscription] + subscriptions, [dep] + deps)
  {
    var e, s, d := [entry] + entries, [subscription] + subscriptions, [dep] + deps;
    assert forall k :: 0 < k < |e| ==> e[k] == entries[k - 1] && s[k] == subscriptions[k - 1] && d[k] == deps[k - 1];
  }

  /** Subscribing records one subscription per entry, in order, for the entries it got past. */
  lemma {:induction false} SubscribeAllRecords(apps: seq<App>, entries: seq<Value>, action: Option<Action>, fetch: string -> Response)
    ensures var r := SubscribeAll(apps, entries, action, fetch);
            Records(entries[..|r.subscriptions|], r.subscriptions, r.deps)
    decreases |entries|
  {
    if entries != [] {
      var step := SubscribeOne(apps, entries[0], action, fetch);
      if step.result.Success? {
        SubscribeAllRecords(step.apps, entries[1..], action, fetch);
        RecordsStep(apps, entries, action, fetch);
      } else {
        SubscribeAllStops(apps, entries, action, fetch);
      }
    }
  }

  /** One step of SubscribeAllRecords: a recorded head in front of the records of the rest. */
  lemma RecordsStep(apps: seq<App>, entries: seq<Value>, action: Option<Action>, fetch: string -> Response)
    requires entries != [] && SubscribeOne(apps, entries[0], action, fetch).result.Success?
    requires var rest := SubscribeAll(SubscribeOne(apps, entries[0], action, fetch).apps, entries[1..], action, fetch);
             Records(entries[1..][..|rest.subscriptions|], rest.subscriptions, rest.deps)
    ensures var r := SubscribeAll(apps, entries, action, fetch);
            Records(entries[..|r.subscriptions|], r.subscriptions, r.deps)
  {
    var step := SubscribeOne(apps, entries[0], action, fetch);
    var (subscription, dep) := step.result.value;
    SubscribeOneRecords(apps, entries[0], action, fetch);
    var rest := SubscribeAll(step.apps, entries[1..], action, fetch);
    SubscribeAllCons(apps, entries, action, fetch);
    RecordsPrefix(entries, |rest.subscriptions|, subscription, dep, rest.subscriptions, rest.deps);
  }

  /** The records of a list's first `n + 1` entries: its head's, then those of the tail's first `n`. */
  lemma RecordsPrefix(entries: seq<Value>, n: nat, subscription: Subscription, dep: App,
                      subscriptions: seq<Subscription>, deps: seq<App>)
    requires n < |entries| && Has(entries[0], "name") && Has(entries[0], "project")
    requires subscription == Subscription(entries[0].entries["name"], dep.name, entries[0].entries["project"])
    requires Records(entries[1..][..n], subscriptions, deps)
    ensures Records(entries[..n + 1], [subscription] + subscriptions, [dep] + deps)
  {
    assert entries[..n + 1] == [entries[0]] + entries[1..][..n];
    RecordsCons(entries[0], subscription, dep, entries[1..][..n], subscriptions, deps);
  }

  /** Every dependency was installed when it was looked at. */
  predicate AllInstalled(deps: seq<App>) {
    forall k :: 0 <= k < |deps| ==> deps[k].status == Some(Installed)
  }

  lemma AllInstalledCons(dep: App, rest: seq<App>)
    ensures AllInstalled([dep] + rest) <==> dep.status == Some(Installed) && AllInstalled(rest)
  {
    var all := [dep] + rest;
    assert all[0] == dep;
    assert forall k :: 0 <= k < |rest| ==> all[k + 1] == rest[k];
    if dep.status == Some(Installed) && AllInstalled(rest) {
      forall k | 0 <= k < |all| ensures all[k].status == Some(Installed) {
        if k > 0 {
          assert all[k] == rest[k - 1];
        }
      }
    }
  }

  /** When subscribing succeeds it reports true exactly when every dependency was installed. */
  lemma {:induction false} SubscribeAllReports(apps: seq<App>, entries: seq<Value>, action: Option<Action>, fetch: string -> Response)
    ensures var r := SubscribeAll(apps, entries, action, fetch);
            r.result.Success? ==> (r.all <==> AllInstalled(r.deps))
    decreases |entries|
  {
    if entries != [] {
      var step := SubscribeOne(apps, entries[0], action, fetch);
      if step.result.Success? {
        SubscribeAllReports(step.apps, entries[1..], action, fetch);
        SubscribeAllCons(apps, entries, action, fetch);
        AllInstalledCons(step.result.value.1, SubscribeAll(step.apps, entries[1..], action, fetch).deps);
      }
    }
  }

  /** Sourcing only ever adds Apps. */
  lemma {:induction false} SourceAllEvolves(apps: seq<App>, entries: seq<Value>, action: Option<Action>, fetch: string -> Response)
    requires UniqueNames(apps)
    ensures Evolves(apps, SourceAll(apps, entries, action, fetch).0)
    decreases |entries|
  {
    if entries != [] {
      DependencyEvolves(apps, entries[0], action, fetch);
      var (found, dep) := Dependency(apps, entries[0], action, fetch);
      if dep.Success? {
        SourceAllEvolves(found, entries[1..], action, fetch);
        EvolvesTransitive(apps, found, SourceAll(found, entries[1..], action, fetch).0);
      }
    }
  }

  /**
   * What other Apps' processing may do to an App: it stays as it was, or one neither
   * installed nor in error is asked to install (line 517); Apps may also be appended.
   */
  predicate StillAsked(before: seq<App>, after: seq<App>) {
    |before| <= |after| &&
    forall i :: 0 <= i < |before| ==>
      after[i] == before[i] || (after[i] == before[i].(action := Some(Install)) && Asks(Install, before[i]))
  }

  lemma StillAskedTransitive(a: seq<App>, b: seq<App>, c: seq<App>)
    requires StillAsked(a, b) && StillAsked(b, c)
    ensures StillAsked(a, c)
  {
  }

  /** Finding or creating a dependency only appends, and the App returned is stored. */
  lemma DependencyAppends(apps: seq<App>, entry: Value, action: Option<Action>, fetch: string -> Response)
    ensures var (after, dep) := Dependency(apps, entry, action, fetch);
            apps <= after && (dep.Success? ==> dep.value in after)
  {
  }

  /** Sourcing only appends Apps. */
  lemma {:induction false} SourceAllAppends(apps: seq<App>, entries: seq<Value>, action: Option<Action>, fetch: string -> Response)
    ensures apps <= SourceAll(apps, entries, action, fetch).0
    decreases |entries|
  {
    if entries != [] {
      DependencyAppends(apps, entries[0], action, fetch);
      var (found, dep) := Dependency(apps, entries[0], action, fetch);
      if dep.Success? && SourceOf(dep.value).Some? {
        SourceAllAppends(found, entries[1..], action, fetch);
      }
    }
  }

  /**
   * Once sourcing succeeds, the dependency of every entry, as found or created when that
   * entry's turn came, has a source and is in the store afterwards, unchanged.
   */
  lemma {:induction false} SourcedStored(apps: seq<App>, entries: seq<Value>, action: Option<Action>, fetch: string -> Response, k: nat)
    requires k < |entries| && SourceAll(apps, entries, action, fetch).1.Success?
    ensures var dep := Dependency(SourceAll(apps, entries[..k], action, fetch).0, entries[k], action, fetch).1;
            dep.Success? && SourceOf(dep.value).Some? && dep.value in SourceAll(apps, entries, action, fetch).0
    decreases k
  {
    var (found, dep) := Dependency(apps, entries[0], action, fetch);
    if k == 0 {
      assert entries[..0] == [];
      DependencyAppends(apps, entries[0], action, fetch);
      SourceAllAppends(found, entries[1..], action, fetch);
    } else {
      SourcedStored(found, entries[1..], action, fetch, k - 1);
      assert entries[..k][0] == entries[0] && entries[..k][1..] == entries[1..][..k - 1];
      assert entries[1..][k - 1] == entries[k];
    }
  }

  /** Recording a stored dependency rewrites at most that App, asking it to install. */
  lemma RecordAsks(apps: seq<App>, entry: Value, action: Action, dep: App)
    requires UniqueNames(apps) && dep in apps
    ensures StillAsked(apps, Record(apps, entry, action, dep).apps)
  {
    var j :| 0 <= j < |apps| && apps[j] == dep;
    NameFindsApp(apps, j);
  }

  /** One subscription step only appends Apps and asks dependencies to install. */
  lemma SubscribeOneAsks(apps: seq<App>, entry: Value, action: Option<Action>, fetch: string -> Response)
    requires UniqueNames(apps)
    ensures StillAsked(apps, SubscribeOne(apps, entry, action, fetch).apps)
  {
    DependencyAppends(apps, entry, action, fetch);
    DependencyEvolves(apps, entry, action, fetch);
    var (found, dep) := Dependency(apps, entry, action, fetch);
    assert StillAsked(apps, found);
    if dep.Success? && action.Some? {
      RecordAsks(found, entry, action.value, dep.value);
      StillAskedTransitive(apps, found, Record(found, entry, action.value, dep.value).apps);
    }
  }

  /** Subscribing only appends Apps and asks dependencies to install. */
  lemma {:induction false} SubscribeAllAsks(apps: seq<App>, entries: seq<Value>, action: Option<Action>, fetch: string -> Response)
    requires UniqueNames(apps)
    ensures StillAsked(apps, SubscribeAll(apps, entries, action, fetch).apps)
    decreases |entries|
  {
    if entries != [] {
      var step := SubscribeOne(apps, entries[0], action, fetch);
      SubscribeOneAsks(apps, entries[0], action, fetch);
      SubscribeOneEvolves(apps, entries[0], action, fetch);
      if step.result.Success? {
        SubscribeAllAsks(step.apps, entries[1..], action, fetch);
        SubscribeAllCons(apps, entries, action, fetch);
        StillAskedTransitive(apps, step.apps, SubscribeAll(step.apps, entries[1..], action, fetch).apps);
      } else {
        SubscribeAllStops(apps, entries, action, fetch);
      }
    }
  }

  /** An App without dependencies subscribes at once, and nothing changes. */
  lemma SubscribeWithoutDependencies(obj: App, apps: seq<App>, fetch: string -> Response)
    requires !obj.SpecHas("subscribe")
    ensures Subscribing(obj, apps, fetch) == (obj, Subscribed(apps, [], [], true, Success(())))
  {
  }
}
