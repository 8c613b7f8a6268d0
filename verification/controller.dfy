/**
 * The reconciler (lib/config.py:373-689, methods of class `Daemon`): it lists the App objects once
 * per pass and, for each, downloads resources, finds or creates dependencies, installs
 * or uninstalls, and writes the App back. The cluster it talks to is the `Cluster` object:
 * the Apps, every other object by key, the kinds the client library knows, this node's
 * name and the HTTP GET it downloads with.
 */
module Controller {
  import opened Wrappers
  import opened Documents
  import opened Sources
  import opened Ordering
  import opened Apps
  import opened Store
  import opened Downloads
  import opened Discovery
  import opened Publishing

  /** Lines 433-437: every filter key is looked up in the App's source, without an early exit. */
  method MatchSource(filter: Source, source: Option<Value>) returns (r: Result<bool, Err>)
    ensures r == MatchApp(filter, source)
  {
    var matched := true;
    var todo := filter.Keys;
    while todo != {}
      invariant todo <= filter.Keys
      invariant todo == filter.Keys ==> matched
      invariant todo != filter.Keys ==> source.Some? && (source.value.Dict? || source.value.List? || source.value.Str?)
      invariant todo != filter.Keys && source.value.Dict? ==>
                  (matched <==> forall k :: k in filter && k !in todo ==> k in source.value.entries && source.value.entries[k] == filter[k])
      invariant todo != filter.Keys && !source.value.Dict? ==>
                  !matched && forall k :: k in filter && k !in todo ==> !Within(k, source.value)
      decreases todo
    {
      var field :| field in todo;
      if source.None? {
        return Failure(MissingKey("source"));
      }
      match source.value {
        case Dict(entries) =>
          if field !in entries || entries[field] != filter[field] {
            matched := false;
          }
        case List(_) =>
          if Within(field, source.value) {
            return Failure(WrongType("source"));
          }
          matched := false;
        case Str(_) =>
          if Within(field, source.value) {
            return Failure(WrongType("source"));
          }
          matched := false;
        case _ =>
          return Failure(WrongType("source"));
      }
      todo := todo - {field};
    }
    return Success(matched);
  }

  /** Lines 549-551 up to the match: the first publication with the asked-for name. */
  method FindPublication(pubs: seq<Publication>, project: Value) returns (r: Result<Option<Publication>, Err>)
    ensures r == FirstPublication(pubs, project)
  {
    var i := 0;
    while i < |pubs|
      invariant 0 <= i <= |pubs|
      invariant FirstPublication(pubs, project) == FirstPublication(pubs[i..], project)
    {
      assert pubs[i..][1..] == pubs[i + 1..];
      if "name" !in pubs[i] {
        return Failure(MissingKey("name"));
      }
      var want := Get(project, "publication");
      if want.Failure? {
        return Failure(want.error);
      }
      if pubs[i]["name"] == want.value {
        return Success(Some(pubs[i]));
      }
      i := i + 1;
    }
    return Success(None);
  }

  /** Lines 640-644: an App without a status is Discovered, one without an action is to Download. */
  function Defaulted(obj: App): (o: App)
    ensures o.status == Some(obj.status.GetOr(Discovered)) && o.action == Some(obj.action.GetOr(Download))
    ensures o == obj.(status := o.status, action := o.action)
  {
    obj.(status := Some(obj.status.GetOr(Discovered)), action := Some(obj.action.GetOr(Download)))
  }

  /** The status changes one pass can make (lines 646-686); an App in error stays in error. */
  predicate Transition(from: Status, to: Status) {
    to == from || to == Error ||
    (from == Discovered && to == Downloaded) ||
    (from != Installed && from != Error && to == Installed) ||
    (from == Installed && to == Downloaded)
  }

  /**
   * Lines 646-649 from the store `apps`: the App with its resources, the store once its
   * dependencies are sourced, and the outcome; the App is Downloaded when both succeed.
   */
  function Fetched(obj: App, apps: seq<App>, fetch: string -> Response): (r: (App, seq<App>, Result<(), Err>))
    ensures r.0.resources == Downloads.Download(obj, fetch).0.resources && r.0.resources.Some?
    ensures r.0 == obj.(resources := r.0.resources, status := r.0.status)
    ensures r.2.Success? <==> Downloads.Download(obj, fetch).1.Success? &&
                              Sourcing(Downloads.Download(obj, fetch).0, apps, fetch).1.Success?
    ensures r.0.status == if r.2.Success? then Some(Downloaded) else obj.status
    ensures UniqueNames(apps) ==> Evolves(apps, r.1) && StillAsked(apps, r.1)
  {
    DownloadFrame(obj, fetch);
    var (downloaded, rd) := Downloads.Download(obj, fetch);
    if rd.Failure? then (downloaded, apps, rd)
    else
      var (sourced, rs) := Sourcing(downloaded, apps, fetch);
      SourcingEvolves(downloaded, apps, fetch);
      (if rs.Success? then downloaded.(status := Some(Downloaded)) else downloaded, sourced, rs)
  }

  /** Sourcing keeps the store's invariants and only appends Apps. */
  lemma SourcingEvolves(obj: App, apps: seq<App>, fetch: string -> Response)
    ensures UniqueNames(apps) ==> Evolves(apps, Sourcing(obj, apps, fetch).0)
    ensures StillAsked(apps, Sourcing(obj, apps, fetch).0)
  {
    if obj.SpecHas("subscribe") && obj.spec.entries["subscribe"].List? {
      var entries := obj.spec.entries["subscribe"].items;
      SourceAllAppends(apps, entries, obj.action, fetch);
      if UniqueNames(apps) {
        SourceAllEvolves(apps, entries, obj.action, fetch);
      }
    }
  }

  /**
   * What `publish(obj)` (lines 569-606) leaves on the objects `objects`: without `spec.publish`
   * nothing changes; otherwise the publications list is set, empty when `spec.publish` is no
   * list, and holding one publication per entry, in order, up to the first entry that cannot
   * be published.
   */
  ghost predicate Publishes(objects: Objects, obj: App, o: App, r: Result<(), Err>) {
    if !obj.SpecHas("publish") then o == obj && r == Success(())
    else
      o.publications.Some? && o == obj.(publications := o.publications) &&
      match obj.spec.entries["publish"]
      case List(entries) =>
        var pubs := o.publications.value;
        |pubs| <= |entries| && (r.Success? <==> |pubs| == |entries|) &&
        (forall k :: 0 <= k < |pubs| ==> Published(objects, entries[k], pubs[k])) &&
        (r.Failure? ==> !Publishable(objects, entries[|pubs|]) && r.error == PublishError(objects, entries[|pubs|]))
      case _ => o.publications == Some([]) && r == Failure(WrongType("publish"))
  }

  /** The store and the objects before and after one App of a pass is reconciled. */
  datatype Round = Round(apps: seq<App>, objects: Objects, appsAfter: seq<App>, objectsAfter: Objects)

  /**
   * Rounds of a pass from `apps` and `objects`: each round starts from what the round before
   * left with its App written back by name (line 689), and the store ends where the last
   * round left it, with its App written back.
   */
  ghost predicate Chained(apps: seq<App>, objects: Objects, rounds: seq<Round>, written: seq<App>,
                          appsEnd: seq<App>, objectsEnd: Objects)
    decreases |rounds|
  {
    |rounds| == |written| &&
    if rounds == [] then appsEnd == apps && objectsEnd == objects
    else
      var last := |rounds| - 1;
      Chained(apps, objects, rounds[..last], written[..last], rounds[last].apps, rounds[last].objects) &&
      ReplaceApp(rounds[last].appsAfter, written[last]).Success? &&
      appsEnd == ReplaceApp(rounds[last].appsAfter, written[last]).value && objectsEnd == rounds[last].objectsAfter
  }

  class Cluster {
    /** The App objects, in listing order. */
    var apps: seq<App>
    /** Every other object, by kind, namespace and name. */
    var objects: Objects
    /** The kinds the client library has a class for (`getattr(pykube, kind)`). */
    const kinds: set<string>
    /** This node's name, the host part of every URL. */
    const node: string
    /** `requests.get`. */
    const fetch: string -> Response

    ghost predicate Valid()
      reads this
    {
      UniqueNames(apps)
    }

    /**
     * Lines 662-663 on the objects `objects`: the App is published, and when publishing
     * succeeded its URL is built from the publications.
     */
    ghost predicate Offers(objects: Objects, obj: App, o: App, r: Result<(), Err>) {
      exists published: App, published': Result<(), Err> :: Publishes(objects, obj, published, published') &&
        if published'.Failure? then o == published && r == published' else (o, r) == Publishing.Url(published, node)
    }

    /**
     * The install branch of lines 650-664 from the objects `before` and the store `store`: the
     * App's labels are shown, every resource is applied, its subscriptions are projected and
     * it is offered; it becomes Installed exactly when all of that succeeds, and the first
     * step that fails ends the branch with what it had written.
     */
    ghost predicate Installs(before: Objects, store: seq<App>, obj: App, after: Objects, o: App, r: Result<(), Err>) {
      if Label(Dict(obj.others)).Failure? then after == before && o == obj && r == Failure(Label(Dict(obj.others)).error)
      else if obj.resources.None? then after == before && o == obj && r == Failure(MissingKey("resources"))
      else
        var (applied, applying) := ApplyAll(before, obj.resources.value, kinds);
        if applying.Failure? then after == applied && o == obj && r == applying
        else
          var (projected, projecting) := if obj.subscriptions.Some? then ProjectAll(applied, store, obj.subscriptions.value)
                                         else (applied, Success(()));
          after == projected &&
          if projecting.Failure? then o == obj && r == projecting
          else exists offered: App :: Offers(projected, obj, offered, r) &&
                 o == if r.Success? then offered.(status := Some(Installed)) else offered
    }

    /**
     * The uninstall branch of lines 666-682 from the objects `before`: the resources are
     * deleted in reverse order; when all are deleted the App is Downloaded, with action
     * Download and without subscriptions, publications or URL.
     */
    ghost predicate Uninstalls(before: Objects, obj: App, after: Objects, o: App, r: Result<(), Err>) {
      if Label(Dict(obj.others)).Failure? then after == before && o == obj && r == Failure(Label(Dict(obj.others)).error)
      else if obj.resources.None? then after == before && o == obj && r == Failure(MissingKey("resources"))
      else
        (after, r) == DeleteAll(before, Reverse(obj.resources.value), kinds) &&
        o == if r.Success? then obj.(subscriptions := None, publications := None, url := None,
                                     action := Some(Download), status := Some(Downloaded))
             else obj
    }

    /**
     * Lines 651-682 from the store `appsBefore` and the objects `objectsBefore`: an App asked
     * to install, neither installed nor in error, subscribes, and installs when every
     * dependency is installed; an installed App asked to uninstall uninstalls; any other App
     * is left alone.
     */
    ghost predicate Acts(appsBefore: seq<App>, objectsBefore: Objects, obj: App,
                         appsAfter: seq<App>, objectsAfter: Objects, o: App, r: Result<(), Err>) {
      if obj.action == Some(Install) && obj.status != Some(Installed) && obj.status != Some(Error) then
        var (subscribed, s) := Subscribing(obj, appsBefore, fetch);
        appsAfter == s.apps &&
        if s.result.Success? && s.all then Installs(objectsBefore, s.apps, subscribed, objectsAfter, o, r)
        else objectsAfter == objectsBefore && o == subscribed && r == s.result
      else if obj.status == Some(Installed) && obj.action == Some(Uninstall) then
        appsAfter == appsBefore && Uninstalls(objectsBefore, obj, objectsAfter, o, r)
      else appsAfter == appsBefore && objectsAfter == objectsBefore && o == obj && r == Success(())
    }

    /**
     * Lines 640-649 from the store `apps`: the App with its defaults, the store and the
     * outcome once it is downloaded, when it is Discovered without resources.
     */
    function Prepared(obj: App, apps: seq<App>): (App, seq<App>, Result<(), Err>) {
      var d := Defaulted(obj);
      if d.status == Some(Discovered) && d.resources.None? then Fetched(d, apps, fetch) else (d, apps, Success(()))
    }

    /**
     * Lines 651-686 once the App is prepared: an App whose download failed is in error;
     * otherwise it acts, and is in error with the reason when acting fails.
     */
    ghost predicate Concludes(prepared: (App, seq<App>, Result<(), Err>), objectsBefore: Objects,
                              appsAfter: seq<App>, objectsAfter: Objects, o: App) {
      var (f, fetched, fetching) := prepared;
      if fetching.Failure? then
        appsAfter == fetched && objectsAfter == objectsBefore && o == f.(status := Some(Error), error := Some(fetching.error))
      else exists acted: App, acting: Result<(), Err> :: Acts(fetched, objectsBefore, f, appsAfter, objectsAfter, acted, acting) &&
             o == if acting.Failure? then acted.(status := Some(Error), error := Some(acting.error)) else acted
    }

    /**
     * One App of a pass (lines 638-686) from the store `appsBefore` and the objects
     * `objectsBefore`: defaults, then download when Discovered without resources, then
     * install or uninstall; the first failure marks the App as in error with the reason.
     */
    ghost predicate Reconciles(appsBefore: seq<App>, objectsBefore: Objects, obj: App,
                               appsAfter: seq<App>, objectsAfter: Objects, o: App) {
      Concludes(Prepared(obj, appsBefore), objectsBefore, appsAfter, objectsAfter, o)
    }

    constructor (apps: seq<App>, objects: Objects, kinds: set<string>, node: string, fetch: string -> Response)
      requires UniqueNames(apps)
      ensures Valid()
      ensures this.apps == apps && this.objects == objects && this.kinds == kinds && this.node == node && this.fetch == fetch
    {
      this.apps := apps;
      this.objects := objects;
      this.kinds := kinds;
      this.node := node;
      this.fetch := fetch;
    }

    /** `pykube.App(self.kube, app).replace()`. */
    method Replace(app: App) returns (r: Result<(), Err>)
      modifies this`apps
      ensures r.Success? <==> ReplaceApp(old(apps), app).Success?
      ensures r.Failure? ==> r.error == ReplaceApp(old(apps), app).error
      ensures apps == if r.Success? then ReplaceApp(old(apps), app).value else old(apps)
    {
      var replaced := ReplaceApp(apps, app);
      if replaced.Failure? {
        return Failure(replaced.error);
      }
      apps := replaced.value;
      return Success(());
    }

    /** `app(source, action)` (lines 428-484): the first App whose source matches, or a new one. */
    method FindApp(filter: Source, action: Action) returns (r: Result<App, Err>)
      modifies this`apps
      ensures (apps, r) == FindOrCreate(old(apps), filter, action, fetch)
    {
      var listing := apps;
      var i := 0;
      while i < |listing|
        invariant 0 <= i <= |listing| && apps == listing
        invariant SearchFrom(listing, filter, 0) == SearchFrom(listing, filter, i)
      {
        var found := MatchSource(filter, SourceOf(listing[i]));
        if found.Failure? {
          return Failure(found.error);
        }
        if found.value {
          if SourceOf(listing[i]).None? {
            return Failure(MissingKey("source"));
          }
          return Success(listing[i]);
        }
        i := i + 1;
      }
      var created := Created(filter, action, fetch);
      if created.Failure? {
        return created;
      }
      if IndexOfName(apps, created.value.name).Some? {
        return Failure(AlreadyExists(created.value.name));
      }
      apps := apps + [created.value];
      return created;
    }

    /** The dependency a `spec.subscribe` entry names, found or created. */
    method Depend(entry: Value, action: Option<Action>) returns (r: Result<App, Err>)
      requires Valid()
      modifies this`apps
      ensures Valid()
      ensures (apps, r) == Dependency(old(apps), entry, action, fetch)
    {
      DependencyEvolves(apps, entry, action, fetch);
      var source := Get(entry, "source");
      if source.Failure? {
        return Failure(source.error);
      }
      if action.None? {
        return Failure(MissingKey("action"));
      }
      var filter := Fields(source.value, "source");
      if filter.Failure? {
        return Failure(filter.error);
      }
      r := FindApp(filter.value, action.value);
    }

    /** `source(obj)` (lines 486-496): every dependency is found or created. */
    method Source(obj: App) returns (r: Result<(), Err>)
      requires Valid()
      modifies this`apps
      ensures Valid() && Evolves(old(apps), apps)
      ensures (apps, r) == Sourcing(obj, old(apps), fetch)
    {
      if !obj.SpecHas("subscribe") {
        return Success(());
      }
      var list := obj.spec.entries["subscribe"];
      if !list.List? {
        return Failure(WrongType("subscribe"));
      }
      var entries := list.items;
      SourceAllEvolves(apps, entries, obj.action, fetch);
      var i := 0;
      while i < |entries|
        invariant 0 <= i <= |entries| && Valid()
        invariant Sourcing(obj, old(apps), fetch) == SourceAll(apps, entries[i..], obj.action, fetch)
      {
        assert entries[i..][1..] == entries[i + 1..];
        var dep := Depend(entries[i], obj.action);
        if dep.Failure? {
          return Failure(dep.error);
        }
        if SourceOf(dep.value).None? {
          return Failure(MissingKey("source"));
        }
        i := i + 1;
      }
      return Success(());
    }

    /** One pass of the loop of lines 504-528. */
    method SubscribeEntry(entry: Value, action: Option<Action>) returns (r: Result<(Subscription, App), Err>)
      requires Valid()
      modifies this`apps
      ensures Valid()
      ensures Step(apps, r) == SubscribeOne(old(apps), entry, action, fetch)
    {
      SubscribeOneEvolves(apps, entry, action, fetch);
      var dep := Depend(entry, action);
      if dep.Failure? {
        return Failure(dep.error);
      }
      r := RecordDependency(entry, action.value, dep.value);
    }

    /** Lines 508-526: the status test, the request to install, and the subscription. */
    method RecordDependency(entry: Value, action: Action, app: App) returns (r: Result<(Subscription, App), Err>)
      modifies this`apps
      ensures Step(apps, r) == Record(old(apps), entry, action, app)
    {
      if app.status.None? {
        return Failure(MissingKey("status"));
      }
      if Asks(action, app) {
        var replaced := Replace(app.(action := Some(Install)));
        if replaced.Failure? {
          return Failure(replaced.error);
        }
      }
      var name := Get(entry, "name");
      if name.Failure? {
        return Failure(name.error);
      }
      var project := Get(entry, "project");
      if project.Failure? {
        return Failure(project.error);
      }
      return Success((Subscription(name.value, app.name, project.value), app));
    }

    /** The loop of lines 504-528 over a list of entries. */
    method SubscribeLoop(entries: seq<Value>, action: Option<Action>)
      returns (subscriptions: seq<Subscription>, subscribed: bool, r: Result<(), Err>, ghost deps: seq<App>)
      requires Valid()
      modifies this`apps
      ensures Valid()
      ensures Subscribed(apps, subscriptions, deps, subscribed, r) == SubscribeAll(old(apps), entries, action, fetch)
    {
      ghost var total := SubscribeAll(apps, entries, action, fetch);
      subscriptions, subscribed, r, deps := [], true, Success(()), [];
      AfterNothing(total);
      var rest := entries;
      while rest != []
        invariant Valid()
        invariant total == After(subscriptions, deps, subscribed, SubscribeAll(apps, rest, action, fetch))
      {
        subscriptions, subscribed, r, deps := SubscribeNext(rest[0], rest, action, subscriptions, subscribed, deps, total);
        if r.Failure? {
          return;
        }
        rest := rest[1..];
      }
      AfterAll(subscriptions, deps, subscribed, apps, action, fetch);
      r := Success(());
    }

    /** One entry of the loop of lines 504-528, the first of `rest`: its subscription and dependency are appended. */
    method SubscribeNext(entry: Value, ghost rest: seq<Value>, action: Option<Action>,
                         subscriptions: seq<Subscription>, subscribed: bool, ghost deps: seq<App>, ghost total: Subscribed)
      returns (subscriptions': seq<Subscription>, subscribed': bool, r: Result<(), Err>, ghost deps': seq<App>)
      requires Valid() && rest != [] && rest[0] == entry
      requires total == After(subscriptions, deps, subscribed, SubscribeAll(apps, rest, action, fetch))
      modifies this`apps
      ensures Valid()
      ensures r.Success? ==> total == After(subscriptions', deps', subscribed', SubscribeAll(apps, rest[1..], action, fetch))
      ensures r.Failure? ==> total == Subscribed(apps, subscriptions', deps', subscribed', r)
    {
      ghost var before := apps;
      var step := SubscribeEntry(entry, action);
      if step.Failure? {
        AfterStops(subscriptions, deps, subscribed, before, apps, rest, action, fetch, step.error);
        return subscriptions, subscribed, Failure(step.error), deps;
      }
      var (subscription, app) := step.value;
      AfterCons(subscriptions, deps, subscribed, before, apps, rest, action, fetch, subscription, app);
      return subscriptions + [subscription], subscribed && app.status == Some(Installed), Success(()), deps + [app];
    }

    /**
     * `subscribe(obj)` (lines 498-530): the App with its subscriptions, whether every
     * dependency is installed, and the dependencies looked at.
     */
    method Subscribe(obj: App) returns (o: App, subscribed: bool, r: Result<(), Err>, ghost deps: seq<App>)
      requires Valid()
      modifies this`apps
      ensures Valid() && Evolves(old(apps), apps) && StillAsked(old(apps), apps)
      ensures var (after, s) := Subscribing(obj, old(apps), fetch);
              o == after && apps == s.apps && r == s.result && deps == s.deps && (r.Success? ==> subscribed == s.all)
      ensures r.Success? ==> (subscribed <==> AllInstalled(deps))
      ensures r.Success? && obj.SpecHas("subscribe") ==>
                obj.spec.entries["subscribe"].List? && o.subscriptions.Some? &&
                Records(obj.spec.entries["subscribe"].items, o.subscriptions.value, deps)
      ensures obj.action == Some(Install) ==>
                forall k :: 0 <= k < |deps| && Asks(Install, deps[k]) ==> Installing(apps, deps[k].name)
    {
      if !obj.SpecHas("subscribe") {
        return obj, true, Success(()), [];
      }
      var list := obj.spec.entries["subscribe"];
      if !list.List? {
        return obj.(subscriptions := Some([])), true, Failure(WrongType("subscribe")), [];
      }
      SubscribeAllEvolves(apps, list.items, obj.action, fetch);
      SubscribeAllAsks(apps, list.items, obj.action, fetch);
      SubscribeAllRecords(apps, list.items, obj.action, fetch);
      SubscribeAllReports(apps, list.items, obj.action, fetch);
      var subscriptions;
      subscriptions, subscribed, r, deps := SubscribeLoop(list.items, obj.action);
      assert r.Success? ==> list.items[..|subscriptions|] == list.items;
      o := obj.(subscriptions := Some(subscriptions));
    }

    /** `resources(obj)` (lines 373-415): download once, stop at the first failure, then sort. */
    method Resources(obj: App) returns (o: App, r: Result<(), Err>)
      ensures (o, r) == Downloads.Download(obj, fetch)
    {
      if obj.resources.Some? {
        return obj, Success(());
      }
      var manifests := obj.SpecGet("manifests");
      if manifests.Failure? {
        return obj.(resources := Some([])), Failure(manifests.error);
      }
      if !manifests.value.List? {
        return obj.(resources := Some([])), Failure(WrongType("manifests"));
      }
      var entries := manifests.value.items;
      var documents := [];
      var i := 0;
      while i < |entries|
        invariant 0 <= i <= |entries|
        invariant FetchAll(obj.spec, entries, fetch, []) == FetchAll(obj.spec, entries[i..], fetch, documents)
      {
        assert entries[i..][0] == entries[i] && entries[i..][1..] == entries[i + 1..];
        var url := ManifestUrl(obj.spec, entries[i]);
        if url.Failure? {
          return obj.(resources := Some(documents)), Failure(url.error);
        }
        var response := fetch(url.value);
        if response.code != 200 {
          return obj.(resources := Some(documents)), Failure(FetchFailed(url.value, response.code));
        }
        documents := documents + response.documents;
        i := i + 1;
      }
      assert entries[i..] == [];
      var keyed := SortKeys(documents);
      if keyed.Failure? {
        return obj.(resources := Some(documents)), keyed;
      }
      return obj.(resources := Some(SortByPriority(documents))), Success(());
    }

    /** The install loop of lines 652-660: each resource replaces what is stored under its key. */
    method Apply(resources: seq<Value>) returns (r: Result<(), Err>)
      modifies this`objects
      ensures (objects, r) == ApplyAll(old(objects), resources, kinds)
    {
      var i := 0;
      while i < |resources|
        invariant 0 <= i <= |resources|
        invariant ApplyAll(old(objects), resources, kinds) == ApplyAll(objects, resources[i..], kinds)
      {
        assert resources[i..][0] == resources[i] && resources[i..][1..] == resources[i + 1..];
        var key := Target(resources[i], kinds);
        if key.Failure? {
          return Failure(key.error);
        }
        objects := objects[key.value := resources[i]];
        i := i + 1;
      }
      assert resources[i..] == [];
      return Success(());
    }

    /** The uninstall loop of lines 670-673: the resources are deleted last first. */
    method Delete(resources: seq<Value>) returns (r: Result<(), Err>)
      modifies this`objects
      ensures (objects, r) == DeleteAll(old(objects), Reverse(resources), kinds)
    {
      var reversed := Reverse(resources);
      var i := 0;
      while i < |reversed|
        invariant 0 <= i <= |reversed|
        invariant DeleteAll(old(objects), reversed, kinds) == DeleteAll(objects, reversed[i..], kinds)
      {
        assert reversed[i..][0] == reversed[i] && reversed[i..][1..] == reversed[i + 1..];
        var key := Target(reversed[i], kinds);
        if key.Failure? {
          return Failure(key.error);
        }
        objects := objects - {key.value};
        i := i + 1;
      }
      assert reversed[i..] == [];
      return Success(());
    }

    /** One subscription of `project(obj)` (lines 537-567). */
    method ProjectSubscription(sub: Subscription) returns (r: Result<(), Err>)
      modifies this`objects
      ensures ProjectOne(old(objects), apps, sub) == if r.Success? then Success(objects) else Failure(r.error)
      ensures r.Failure? ==> objects == old(objects)
    {
      var app := AppNamed(apps, sub.app);
      if app.Failure? {
        return Failure(app.error);
      }
      if app.value.publications.None? {
        return Failure(MissingKey("publications"));
      }
      var found := FindPublication(app.value.publications.value, sub.project);
      if found.Failure? {
        return Failure(found.error);
      }
      var projected := Projection(objects, sub, found.value);
      if projected.Failure? {
        return Failure(projected.error);
      }
      objects := projected.value;
      return Success(());
    }

    /** `project(obj)` (lines 532-567): every subscription's publication is written to its ConfigMap. */
    method Project(obj: App) returns (r: Result<(), Err>)
      modifies this`objects
      ensures obj.subscriptions.None? ==> objects == old(objects) && r == Success(())
      ensures obj.subscriptions.Some? ==> (objects, r) == ProjectAll(old(objects), apps, obj.subscriptions.value)
    {
      if obj.subscriptions.None? {
        return Success(());
      }
      var subs := obj.subscriptions.value;
      var i := 0;
      while i < |subs|
        invariant 0 <= i <= |subs|
        invariant ProjectAll(old(objects), apps, subs) == ProjectAll(objects, apps, subs[i..])
      {
        assert subs[i..][0] == subs[i] && subs[i..][1..] == subs[i + 1..];
        r := ProjectSubscription(subs[i]);
        if r.Failure? {
          return;
        }
        i := i + 1;
      }
      assert subs[i..] == [];
      return Success(());
    }

    /** Lines 583-600: the fields a Service contributes to a publication. */
    method ServiceFieldsOf(service: Value) returns (r: Result<Publication, Err>)
      ensures r == ServiceFields(objects, service)
    {
      var s := ServiceOf(objects, service);
      if s.Failure? {
        return Failure(s.error);
      }
      var metadata := Get(s.value, "metadata");
      if metadata.Failure? {
        return Failure(metadata.error);
      }
      var name := Get(metadata.value, "name");
      if name.Failure? {
        return Failure(name.error);
      }
      var namespace := Get(metadata.value, "namespace");
      if namespace.Failure? {
        return Failure(namespace.error);
      }
      var port: Option<Value> := None;
      if Has(service, "port") {
        var spec := Get(s.value, "spec");
        if spec.Failure? {
          return Failure(spec.error);
        }
        var ports := Get(spec.value, "ports");
        if ports.Failure? {
          return Failure(ports.error);
        }
        if !ports.value.List? {
          return Failure(WrongType("ports"));
        }
        var items, want := ports.value.items, service.entries["port"];
        var i := 0;
        while i < |items|
          invariant 0 <= i <= |items|
          invariant NamedPort(items, want, None) == NamedPort(items[i..], want, port)
        {
          assert items[i..][0] == items[i] && items[i..][1..] == items[i + 1..];
          if Has(items[i], "name") && items[i].entries["name"] == want {
            var number := Get(items[i], "port");
            if number.Failure? {
              return Failure(number.error);
            }
            port := Some(number.value);
          }
          i := i + 1;
        }
        assert items[i..] == [];
      }
      var spec := Get(s.value, "spec");
      if spec.Failure? {
        return Failure(spec.error);
      }
      var kind := Get(spec.value, "type");
      if kind.Failure? {
        return Failure(kind.error);
      }
      r := Success(map["host" := Str(Format(name.value) + "." + Format(namespace.value))]
                   + (if port.Some? then map["port" := port.value] else map[])
                   + (if kind.value == Str("LoadBalancer") then map["ingress" := Bool(true)] else map[]));
    }

    /**
     * One `spec.publish` entry (lines 577-602). Its fields are visited in the dictionary's
     * order, which the model leaves open: the loop picks any field not yet visited.
     */
    method PublishEntry(entry: Value) returns (r: Result<Publication, Err>)
      ensures r.Success? <==> Publishable(objects, entry)
      ensures r.Success? ==> Published(objects, entry, r.value)
      ensures r.Failure? ==> r.error == PublishError(objects, entry)
    {
      var visited := Fields(entry, "publish");
      if visited.Failure? {
        return Failure(visited.error);
      }
      var fields := visited.value;
      ghost var service: Publication :=
        if "service" in fields && ServiceFields(objects, fields["service"]).Success?
        then ServiceFields(objects, fields["service"]).value else map[];
      var p: Publication := map[];
      var todo := fields.Keys;
      while todo != {}
        invariant todo <= fields.Keys
        invariant "service" in fields && "service" !in todo ==> ServiceFields(objects, fields["service"]).Success?
        invariant PublishedSoFar(fields, service, fields.Keys - todo, p)
        decreases todo
      {
        var field :| field in todo;
        if field == "service" {
          var got := ServiceFieldsOf(fields["service"]);
          if got.Failure? {
            return Failure(got.error);
          }
          PublishedSoFarService(fields, service, fields.Keys - todo, p);
          p := p + got.value;
        } else {
          PublishedSoFarField(fields, service, fields.Keys - todo, p, field);
          p := p[field := fields[field]];
        }
        assert fields.Keys - (todo - {field}) == (fields.Keys - todo) + {field};
        todo := todo - {field};
      }
      PublishedSoFarDone(fields, service, p);
      return Success(p);
    }

    /** `publish(obj)` (lines 569-606): one publication per `spec.publish` entry, appended as built. */
    method Publish(obj: App) returns (o: App, r: Result<(), Err>)
      ensures Publishes(objects, obj, o, r)
    {
      if !obj.SpecHas("publish") {
        return obj, Success(());
      }
      var list := obj.spec.entries["publish"];
      if !list.List? {
        return obj.(publications := Some([])), Failure(WrongType("publish"));
      }
      var entries := list.items;
      var pubs: seq<Publication> := [];
      while |pubs| < |entries|
        invariant |pubs| <= |entries|
        invariant forall k :: 0 <= k < |pubs| ==> Published(objects, entries[k], pubs[k])
        decreases |entries| - |pubs|
      {
        var p := PublishEntry(entries[|pubs|]);
        if p.Failure? {
          return obj.(publications := Some(pubs)), Failure(p.error);
        }
        pubs := pubs + [p.value];
      }
      return obj.(publications := Some(pubs)), Success(());
    }

    /** `url(obj)` (lines 608-630). */
    method Url(obj: App) returns (o: App, r: Result<(), Err>)
      ensures (o, r) == Publishing.Url(obj, node)
      ensures o == obj.(url := o.url)
    {
      if !obj.SpecHas("url") || obj.publications.None? {
        return obj, Success(());
      }
      var pubs := obj.publications.value;
      UrlAllFrame(obj, pubs, node);
      o := obj;
      var i := 0;
      while i < |pubs|
        invariant 0 <= i <= |pubs|
        invariant Publishing.Url(obj, node) == UrlAll(o, pubs[i..], node)
      {
        assert pubs[i..][0] == pubs[i] && pubs[i..][1..] == pubs[i + 1..];
        var (written, step) := UrlFrom(o, pubs[i], node);
        if written.Some? {
          o := o.(url := written);
        }
        if step.Failure? {
          return o, step;
        }
        i := i + 1;
      }
      assert pubs[i..] == [];
      return o, Success(());
    }

    /**
     * The install branch of lines 650-664: every resource is applied, then the App's
     * subscriptions are projected, its publications built and its URL set.
     */
    method InstallApp(obj: App) returns (o: App, r: Result<(), Err>)
      modifies this`objects
      ensures Installs(old(objects), apps, obj, objects, o, r)
      ensures o == obj.(publications := o.publications, url := o.url, status := o.status)
      ensures r.Success? ==> Label(Dict(obj.others)).Success? && obj.resources.Some? &&
                             Applicable(obj.resources.value, kinds) && o.status == Some(Installed) &&
                             objects.Keys == old(objects).Keys + Keys(obj.resources.value, kinds)
      ensures r.Failure? ==> o.status == obj.status
      ensures Label(Dict(obj.others)).Failure? || obj.resources.None? ==> o == obj && objects == old(objects) && r.Failure?
    {
      var shown := Label(Dict(obj.others));
      if shown.Failure? {
        return obj, Failure(shown.error);
      }
      if obj.resources.None? {
        return obj, Failure(MissingKey("resources"));
      }
      var resources := obj.resources.value;
      ApplyAllEffect(objects, resources, kinds);
      ghost var before := objects;
      r := Apply(resources);
      if r.Failure? {
        return obj, r;
      }
      if obj.subscriptions.Some? {
        ProjectAllKeys(objects, apps, obj.subscriptions.value);
      }
      r := Project(obj);
      if r.Failure? {
        return obj, r;
      }
      o, r := Offer(obj);
      ghost var offered := o;
      if r.Success? {
        o := o.(status := Some(Installed));
      }
      assert Offers(objects, obj, offered, r);
    }

    /** Lines 662-663: the publications, then the URL built from them. */
    method Offer(obj: App) returns (o: App, r: Result<(), Err>)
      ensures Offers(objects, obj, o, r)
      ensures o == obj.(publications := o.publications, url := o.url)
    {
      o, r := Publish(obj);
      ghost var published, published' := o, r;
      if r.Success? {
        o, r := Url(o);
      }
      assert Publishes(objects, obj, published, published');
    }

    /**
     * The uninstall branch of lines 666-682: the resources are deleted in reverse order and
     * the App goes back to Downloaded, without subscriptions, publications or URL.
     */
    method UninstallApp(obj: App) returns (o: App, r: Result<(), Err>)
      modifies this`objects
      ensures Uninstalls(old(objects), obj, objects, o, r)
      ensures r.Success? <==> Label(Dict(obj.others)).Success? && obj.resources.Some? && Applicable(obj.resources.value, kinds)
      ensures r.Success? ==> objects == old(objects) - Keys(obj.resources.value, kinds) &&
                             o == obj.(subscriptions := None, publications := None, url := None,
                                       action := Some(Download), status := Some(Downloaded))
      ensures r.Failure? ==> o == obj
      ensures r.Failure? && obj.resources.Some? && Label(Dict(obj.others)).Success? ==>
                objects == DeleteAll(old(objects), Reverse(obj.resources.value), kinds).0
      ensures Label(Dict(obj.others)).Failure? || obj.resources.None? ==> objects == old(objects)
    {
      var shown := Label(Dict(obj.others));
      if shown.Failure? {
        return obj, Failure(shown.error);
      }
      if obj.resources.None? {
        return obj, Failure(MissingKey("resources"));
      }
      var resources := obj.resources.value;
      ReverseApplicable(resources, kinds);
      DeleteAllEffect(objects, Reverse(resources), kinds);
      r := Delete(resources);
      if r.Failure? {
        return obj, r;
      }
      o := obj.(subscriptions := None, publications := None, url := None,
                action := Some(Download), status := Some(Downloaded));
    }

    /**
     * Lines 646-649: an App just discovered gets its resources and its dependencies, and
     * becomes Downloaded.
     */
    method Fetch(obj: App) returns (o: App, r: Result<(), Err>)
      requires Valid()
      modifies this`apps
      ensures Valid() && Evolves(old(apps), apps) && StillAsked(old(apps), apps)
      ensures (o, apps, r) == Fetched(obj, old(apps), fetch)
      ensures o == obj.(resources := o.resources, status := o.status) && o.resources.Some?
      ensures obj.resources.Some? ==> o.resources == obj.resources
      ensures o.status == obj.status || (r.Success? && o.status == Some(Downloaded))
      ensures r.Success? ==> o.status == Some(Downloaded)
    {
      DownloadFrame(obj, fetch);
      o, r := Resources(obj);
      if r.Success? {
        SourcingEvolves(o, apps, fetch);
        r := Source(o);
        if r.Success? {
          o := o.(status := Some(Downloaded));
        }
      }
    }

    /**
     * Lines 651-682 once the App is downloaded: install when asked and every dependency is
     * installed, uninstall when asked and installed.
     */
    method Act(obj: App) returns (o: App, r: Result<(), Err>, ghost deps: seq<App>)
      requires Valid() && obj.status.Some? && obj.action.Some?
      modifies this`apps, this`objects
      ensures Valid() && Evolves(old(apps), apps) && StillAsked(old(apps), apps)
      ensures Acts(old(apps), old(objects), obj, apps, objects, o, r)
      ensures r.Failure? ==> o.status == obj.status
      ensures obj.action == Some(Install) && obj.status != Some(Installed) && obj.status != Some(Error) ==>
                (r.Success? && AllInstalled(deps) ==> o.status == Some(Installed))
      ensures obj.status == Some(Installed) && obj.action == Some(Uninstall) ==>
                (r.Success? <==> Label(Dict(obj.others)).Success? && obj.resources.Some? &&
                                 Applicable(obj.resources.value, kinds)) &&
                (r.Success? ==> o.status == Some(Downloaded))
      ensures o.name == obj.name && o.spec == obj.spec && o.others == obj.others && o.error == obj.error
      ensures o.resources == obj.resources
      ensures o.status == obj.status || (r.Success? && o.status == Some(Installed) && obj.status != Some(Error)) ||
              (r.Success? && o.status == Some(Downloaded) && obj.status == Some(Installed))
      ensures o.action == obj.action || (r.Success? && o.action == Some(Download) && o.status == Some(Downloaded))
      ensures obj.status == Some(Error) ==> o == obj && r.Success? && apps == old(apps) && objects == old(objects)
      ensures o.status == Some(Installed) && obj.status != Some(Installed) ==>
                obj.action == Some(Install) && o.resources.Some? && Applicable(o.resources.value, kinds) &&
                Keys(o.resources.value, kinds) <= objects.Keys && AllInstalled(deps) &&
                (obj.SpecHas("subscribe") ==>
                   obj.spec.entries["subscribe"].List? && o.subscriptions.Some? &&
                   Records(obj.spec.entries["subscribe"].items, o.subscriptions.value, deps))
      ensures o.status == Some(Downloaded) && obj.status == Some(Installed) ==>
                obj.action == Some(Uninstall) && obj.resources.Some? &&
                Applicable(obj.resources.value, kinds) && objects == old(objects) - Keys(obj.resources.value, kinds) &&
                o.subscriptions.None? && o.publications.None? && o.url.None?
    {
      o, r, deps := obj, Success(()), [];
      if obj.action == Some(Install) && obj.status != Some(Installed) && obj.status != Some(Error) {
        var subscribed;
        o, subscribed, r, deps := Subscribe(obj);
        if r.Success? && subscribed {
          o, r := InstallApp(o);
        }
      } else if obj.status == Some(Installed) && obj.action == Some(Uninstall) {
        o, r := UninstallApp(obj);
      }
    }

    /** Lines 640-649: the defaults, then the download of an App Discovered without resources. */
    method Prepare(obj: App) returns (o: App, r: Result<(), Err>)
      requires Valid()
      modifies this`apps
      ensures Valid() && Evolves(old(apps), apps) && StillAsked(old(apps), apps)
      ensures (o, apps, r) == Prepared(obj, old(apps))
      ensures o == Defaulted(obj).(resources := o.resources, status := o.status)
      ensures obj.resources.Some? ==> o.resources == obj.resources
      ensures o.status == Defaulted(obj).status ||
              (r.Success? && o.status == Some(Downloaded) && Defaulted(obj).status == Some(Discovered))
      ensures r.Failure? ==> Defaulted(obj).status == Some(Discovered) && obj.resources.None? && o.status == Defaulted(obj).status
    {
      o := Defaulted(obj);
      r := Success(());
      if o.status == Some(Discovered) && o.resources.None? {
        o, r := Fetch(o);
      }
    }

    /**
     * One App of a pass (lines 638-687) up to the write-back of line 689: defaults, then download, then
     * install or uninstall. Any failure marks the App as in error with the reason, and keeps
     * what had been written to it and to the cluster until then.
     */
    method Reconcile(obj: App) returns (o: App, ghost deps: seq<App>)
      requires Valid()
      modifies this`apps, this`objects
      ensures Valid() && Evolves(old(apps), apps) && StillAsked(old(apps), apps)
      ensures Reconciles(old(apps), old(objects), obj, apps, objects, o)
      ensures var d := Defaulted(obj);
              d.action == Some(Install) && d.status != Some(Installed) && d.status != Some(Error) ==>
                (o.status != Some(Error) && AllInstalled(deps) ==> o.status == Some(Installed))
      ensures var d := Defaulted(obj);
              d.status == Some(Installed) && d.action == Some(Uninstall) ==>
                (o.status == Some(Downloaded) <==> Label(Dict(obj.others)).Success? && obj.resources.Some? &&
                                                   Applicable(obj.resources.value, kinds)) &&
                (o.status == Some(Downloaded) || o.status == Some(Error))
      ensures var d := Defaulted(obj);
              d.status == Some(Discovered) && obj.resources.None? && d.action != Some(Install) ==>
                o.resources == Fetched(d, old(apps), fetch).0.resources &&
                (o.status == Some(Downloaded) <==> Fetched(d, old(apps), fetch).2.Success?) &&
                (o.status == Some(Downloaded) || o.status == Some(Error))
      ensures o.name == obj.name && o.spec == obj.spec && o.others == obj.others
      ensures obj.resources.Some? ==> o.resources == obj.resources
      ensures o.status.Some? && o.action.Some? && Transition(Defaulted(obj).status.value, o.status.value)
      ensures o.status != Some(Error) ==> o.error == obj.error
      ensures o.status == Some(Error) && obj.status != Some(Error) ==> o.error.Some?
      ensures obj.status == Some(Error) ==> o == Defaulted(obj) && apps == old(apps) && objects == old(objects)
      ensures o.action == Defaulted(obj).action || (o.action == Some(Download) && o.status == Some(Downloaded))
      ensures o.status == Some(Installed) && obj.status != Some(Installed) ==>
                o.action == Some(Install) && o.resources.Some? && Applicable(o.resources.value, kinds) &&
                Keys(o.resources.value, kinds) <= objects.Keys && AllInstalled(deps) &&
                (obj.SpecHas("subscribe") ==>
                   obj.spec.entries["subscribe"].List? && o.subscriptions.Some? &&
                   Records(obj.spec.entries["subscribe"].items, o.subscriptions.value, deps))
      ensures o.status == Some(Downloaded) && obj.status == Some(Installed) ==>
                Defaulted(obj).action == Some(Uninstall) && obj.resources.Some? &&
                Applicable(obj.resources.value, kinds) && objects == old(objects) - Keys(obj.resources.value, kinds) &&
                o.subscriptions.None? && o.publications.None? && o.url.None?
    {
      var p, ready := Prepare(obj);
      o, deps := Conclude(p, ready);
    }

    /**
     * Lines 651-686 for the App `p` as prepared, with `ready` the outcome of its download: the
     * action unless the download failed, and the App in error with the reason on a failure.
     */
    method Conclude(p: App, ready: Result<(), Err>) returns (o: App, ghost deps: seq<App>)
      requires Valid() && p.status.Some? && p.action.Some?
      modifies this`apps, this`objects
      ensures Valid() && Evolves(old(apps), apps) && StillAsked(old(apps), apps)
      ensures Concludes((p, old(apps), ready), old(objects), apps, objects, o)
      ensures ready.Failure? ==> o == p.(status := Some(Error), error := Some(ready.error)) &&
                                 apps == old(apps) && objects == old(objects)
      ensures p.action == Some(Install) && p.status != Some(Installed) && p.status != Some(Error) ==>
                (o.status != Some(Error) && AllInstalled(deps) ==> o.status == Some(Installed))
      ensures ready.Success? && p.status == Some(Installed) && p.action == Some(Uninstall) ==>
                (o.status == Some(Downloaded) <==> Label(Dict(p.others)).Success? && p.resources.Some? &&
                                                   Applicable(p.resources.value, kinds)) &&
                (o.status == Some(Downloaded) || o.status == Some(Error))
      ensures o.name == p.name && o.spec == p.spec && o.others == p.others && o.resources == p.resources
      ensures o.status == p.status || o.status == Some(Error) || (o.status == Some(Installed) && p.status != Some(Error)) ||
              (o.status == Some(Downloaded) && p.status == Some(Installed))
      ensures o.status != Some(Error) ==> o.error == p.error
      ensures o.status == Some(Error) && p.status != Some(Error) ==> o.error.Some?
      ensures ready.Success? && p.status == Some(Error) ==> o == p && apps == old(apps) && objects == old(objects)
      ensures o.action == p.action || (o.action == Some(Download) && o.status == Some(Downloaded))
      ensures o.status == Some(Installed) && p.status != Some(Installed) ==>
                p.action == Some(Install) && o.resources.Some? && Applicable(o.resources.value, kinds) &&
                Keys(o.resources.value, kinds) <= objects.Keys && AllInstalled(deps) &&
                (p.SpecHas("subscribe") ==>
                   p.spec.entries["subscribe"].List? && o.subscriptions.Some? &&
                   Records(p.spec.entries["subscribe"].items, o.subscriptions.value, deps))
      ensures o.status == Some(Downloaded) && p.status == Some(Installed) ==>
                p.action == Some(Uninstall) && p.resources.Some? &&
                Applicable(p.resources.value, kinds) && objects == old(objects) - Keys(p.resources.value, kinds) &&
                o.subscriptions.None? && o.publications.None? && o.url.None?
    {
      o, deps := p, [];
      var r := ready;
      ghost var acted, acting := o, r;
      if r.Success? {
        o, r, deps := Act(o);
        acted, acting := o, r;
      }
      if r.Failure? {
        o := o.(status := Some(Error), error := Some(r.error));
      }
      ConcludesFrom((p, old(apps), ready), old(objects), apps, objects, acted, acting, o);
    }

    /** The second stage of Reconciles: the action unless the download failed. */
    lemma ConcludesFrom(prepared: (App, seq<App>, Result<(), Err>), objectsBefore: Objects,
                        appsAfter: seq<App>, objectsAfter: Objects, acted: App, acting: Result<(), Err>, o: App)
      requires prepared.2.Failure? ==> appsAfter == prepared.1 && objectsAfter == objectsBefore &&
                                       o == prepared.0.(status := Some(Error), error := Some(prepared.2.error))
      requires prepared.2.Success? ==> Acts(prepared.1, objectsBefore, prepared.0, appsAfter, objectsAfter, acted, acting) &&
                                       o == if acting.Failure? then acted.(status := Some(Error), error := Some(acting.error)) else acted
      ensures Concludes(prepared, objectsBefore, appsAfter, objectsAfter, o)
    {
    }

    /** Round `k` reconciled the listed App `k` into `written[k]`, for every round so far. */
    ghost predicate Reconciled(listed: seq<App>, rounds: seq<Round>, written: seq<App>) {
      |rounds| == |written| <= |listed| &&
      forall k :: 0 <= k < |rounds| ==>
        Reconciles(rounds[k].apps, rounds[k].objects, listed[k], rounds[k].appsAfter, rounds[k].objectsAfter, written[k])
    }

    lemma ReconciledNext(listed: seq<App>, rounds: seq<Round>, written: seq<App>, round: Round, o: App)
      requires Reconciled(listed, rounds, written) && |rounds| < |listed|
      requires Reconciles(round.apps, round.objects, listed[|rounds|], round.appsAfter, round.objectsAfter, o)
      ensures Reconciled(listed, rounds + [round], written + [o])
    {
      var rs, ws := rounds + [round], written + [o];
      forall k | 0 <= k < |rs|
        ensures Reconciles(rs[k].apps, rs[k].objects, listed[k], rs[k].appsAfter, rs[k].objectsAfter, ws[k])
      {
        if k < |rounds| {
          assert rs[k] == rounds[k] && ws[k] == written[k];
        }
      }
    }

    /**
     * What a pass promises of the store and the objects, `apps` and `objects`, once
     * `|written|` of the `listed` Apps are reconciled and written back.
     */
    ghost predicate PassInvariant(listed: seq<App>, objects0: Objects, written: seq<App>, rounds: seq<Round>,
                                  apps: seq<App>, objects: Objects) {
      |written| <= |listed| && UniqueNames(apps) && Extends(listed, apps) &&
      (forall k :: 0 <= k < |written| ==>
         written[k].name == listed[k].name && written[k].status.Some? &&
         Transition(Defaulted(listed[k]).status.value, written[k].status.value)) &&
      (forall k :: 0 <= k < |listed| && listed[k].status == Some(Error) ==>
         apps[k] == if k < |written| then Defaulted(listed[k]) else listed[k]) &&
      StillAsked(written, apps) &&
      Chained(listed, objects0, rounds, written, apps, objects)
    }

    /**
     * One round of the pass: the invariant still holds once App `i` is reconciled and
     * written back at its position.
     */
    lemma PassStep(listed: seq<App>, objects: Objects, written: seq<App>, rounds: seq<Round>, round: Round, o: App)
      requires |written| < |listed| && PassInvariant(listed, objects, written, rounds, round.apps, round.objects)
      requires UniqueNames(round.appsAfter) && Evolves(round.apps, round.appsAfter) && StillAsked(round.apps, round.appsAfter)
      requires o.name == listed[|written|].name && o.status.Some? &&
               Transition(Defaulted(listed[|written|]).status.value, o.status.value)
      requires listed[|written|].status == Some(Error) ==> o == Defaulted(listed[|written|])
      ensures ReplaceApp(round.appsAfter, o) == Success(round.appsAfter[|written| := o])
      ensures PassInvariant(listed, objects, written + [o], rounds + [round], round.appsAfter[|written| := o], round.objectsAfter)
    {
      var i := |written|;
      ReplaceAt(round.appsAfter, i, o);
      ErrorsStay(listed, round.apps, round.appsAfter, i);
      WrittenBack(listed, round.appsAfter, written, i, o);
      StillAskedTransitive(written, round.apps, round.appsAfter);
      Rounds(listed, objects, rounds, written, round.apps, round.objects, round, o, i);
    }

    /**
     * `apps()` (lines 632-689): one pass over the Apps as listed when it starts. Each listed
     * App is reconciled and written back under its name; `written` holds what was written,
     * `rounds` the store and objects each App was reconciled from and left behind.
     */
    method Pass() returns (ghost written: seq<App>, ghost rounds: seq<Round>)
      requires Valid()
      modifies this`apps, this`objects
      ensures Valid() && Extends(old(apps), apps)
      ensures |written| == |old(apps)|
      ensures forall i :: 0 <= i < |written| ==>
                written[i].name == old(apps)[i].name && written[i].status.Some? &&
                Transition(Defaulted(old(apps)[i]).status.value, written[i].status.value)
      ensures forall i :: 0 <= i < |old(apps)| && old(apps)[i].status == Some(Error) ==> apps[i] == Defaulted(old(apps)[i])
      ensures StillAsked(written, apps)
      ensures Chained(old(apps), old(objects), rounds, written, apps, objects)
      ensures Reconciled(old(apps), rounds, written)
    {
      var listed := apps;
      written, rounds := [], [];
      var i := 0;
      while i < |listed|
        invariant 0 <= i <= |listed| && Valid() && |written| == i
        invariant PassInvariant(listed, old(objects), written, rounds, apps, objects)
        invariant Reconciled(listed, rounds, written)
      {
        written, rounds := PassOne(listed, i, old(objects), written, rounds);
        i := i + 1;
      }
    }

    /** `Reconcile`, seen from the pass: the facts a round of the pass relies on. */
    method ReconcileListed(obj: App) returns (o: App)
      requires Valid()
      modifies this`apps, this`objects
      ensures Valid() && Evolves(old(apps), apps) && StillAsked(old(apps), apps)
      ensures Reconciles(old(apps), old(objects), obj, apps, objects, o)
      ensures o.name == obj.name && o.status.Some? && Transition(Defaulted(obj).status.value, o.status.value)
      ensures obj.status == Some(Error) ==> o == Defaulted(obj)
    {
      ghost var deps;
      o, deps := Reconcile(obj);
    }

    /** One round of the pass (lines 640-689): the next listed App is reconciled and written back. */
    method PassOne(listed: seq<App>, i: nat, ghost objects0: Objects, ghost written: seq<App>, ghost rounds: seq<Round>)
        returns (ghost written': seq<App>, ghost rounds': seq<Round>)
      requires Valid() && i == |written| < |listed|
      requires PassInvariant(listed, objects0, written, rounds, apps, objects)
      requires Reconciled(listed, rounds, written)
      modifies this`apps, this`objects
      ensures Valid() && |written'| == |written| + 1
      ensures PassInvariant(listed, objects0, written', rounds', apps, objects)
      ensures Reconciled(listed, rounds', written')
    {
      ghost var before, objectsBefore := apps, objects;
      var o := ReconcileListed(listed[i]);
      ghost var round := Round(before, objectsBefore, apps, objects);
      PassStep(listed, objects0, written, rounds, round, o);
      ReconciledNext(listed, rounds, written, round, o);
      apps := ReplaceApp(apps, o).value;
      written', rounds' := written + [o], rounds + [round];
    }
  }

  /** Appending a round whose App is written back at position `i` keeps the rounds chained. */
  lemma Rounds(listed: seq<App>, objects: Objects, rounds: seq<Round>, written: seq<App>,
               before: seq<App>, objectsBefore: Objects, round: Round, o: App, i: nat)
    requires Chained(listed, objects, rounds, written, before, objectsBefore) && |rounds| == i
    requires round.apps == before && round.objects == objectsBefore
    requires i < |round.appsAfter| && UniqueNames(round.appsAfter) && o.name == round.appsAfter[i].name
    requires StillAsked(written, round.appsAfter)
    ensures Chained(listed, objects, rounds + [round], written + [o], round.appsAfter[i := o], round.objectsAfter)
    ensures StillAsked(written + [o], round.appsAfter[i := o])
  {
    ReplaceAt(round.appsAfter, i, o);
    assert (rounds + [round])[..i] == rounds && (written + [o])[..i] == written;
  }

  /** Apps in error that the pass reaches are kept as they were by the round before. */
  lemma ErrorsStay(listed: seq<App>, before: seq<App>, after: seq<App>, i: nat)
    requires Extends(listed, before) && Evolves(before, after)
    requires forall k :: 0 <= k < |listed| && listed[k].status == Some(Error) ==>
               before[k] == if k < i then Defaulted(listed[k]) else listed[k]
    ensures Extends(listed, after)
    ensures forall k :: 0 <= k < |listed| && listed[k].status == Some(Error) ==>
              after[k] == if k < i then Defaulted(listed[k]) else listed[k]
  {
  }

  /** Writing the reconciled App `i` back keeps what the pass promises of the Apps before it. */
  lemma WrittenBack(listed: seq<App>, apps: seq<App>, written: seq<App>, i: nat, o: App)
    requires i < |listed| <= |apps| && |written| == i && Extends(listed, apps)
    requires o.name == listed[i].name && o.status.Some? && Transition(Defaulted(listed[i]).status.value, o.status.value)
    requires listed[i].status == Some(Error) ==> o == Defaulted(listed[i])
    requires forall k :: 0 <= k < i ==>
               written[k].name == listed[k].name && written[k].status.Some? &&
               Transition(Defaulted(listed[k]).status.value, written[k].status.value)
    requires forall k :: 0 <= k < |listed| && listed[k].status == Some(Error) ==>
               apps[k] == if k < i then Defaulted(listed[k]) else listed[k]
    ensures forall k :: 0 <= k < i + 1 ==>
              (written + [o])[k].name == listed[k].name && (written + [o])[k].status.Some? &&
              Transition(Defaulted(listed[k]).status.value, (written + [o])[k].status.value)
    ensures forall k :: 0 <= k < |listed| && listed[k].status == Some(Error) ==>
              apps[i := o][k] == if k < i + 1 then Defaulted(listed[k]) else listed[k]
    ensures Extends(listed, apps[i := o])
  {
  }
}
