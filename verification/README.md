# klot-io config daemon: the App controller and the ingress publisher

`lib/config.py` of klot-io pi-setup is the daemon that runs on every node of a Raspberry
Pi Kubernetes cluster. Most of it bootstraps the operating system. Two parts of it are
reconcilers that run once per poll and can be stated precisely, and this project models
them, along with two small pieces next to them:

- **The App controller pass** (`apps`, lines 632-689, and its helpers). Every App object
  moves through `Discovered → Downloaded → Installed`, or ends in `Error`.
  - `resources` downloads and sorts an App's manifests.
  - `app` finds or creates an App by part of its source; `source` and `subscribe` wire its
    dependencies.
  - Installing applies every resource. Then `project` writes publications into subscriber
    ConfigMaps, `publish` builds the App's own publications and `url` derives its URL.
  - Uninstalling deletes the resources in reverse order and forgets what installing added.
  - The cluster is the class `Controller.Cluster`: the App objects in listing order, every
    other object by `(kind, namespace, name)`, the kinds the client library knows, the node
    name and the HTTP GET.
  - An exception is a `Failure`. The per-App boundary turns it into `status: Error`.
- **The ingress publisher** (`services` and `nginx`, lines 691-793).
  - Each LoadBalancer Service with named http/https ports is proxied by one node: the one
    whose name sorts first among the nodes running its pods.
  - That node announces the Service's host name over mDNS and keeps one nginx file per host
    in `/etc/nginx/conf.d`. The file is rewritten only when reading the directory back does
    not give the expected proxies.
  - The publisher is the class `Ingress.Publisher`. The directory is a map from file name to
    lines. The `SERVER` template (lines 43-54) and the reader of lines 695-711 are functions
    over lines.
  - Rendering then reading gives back what was rendered when both ports are integers and the
    pod IP holds no `:` or `/` (`Proxy.Renderable`).
  - A Service whose `targetPort` is a name (`targetPort: http`) is rendered all the same.
    `int()` at line 709 then refuses the file it was written to, so every later `nginx`
    call fails and changes nothing (`Ingress.NamedTargetPortWedges`).
- **The configuration cache** (`load`, lines 115-130). A `*.yaml` file is re-read only when
  its modification time differs from the one recorded for its configuration.
- **The mDNS name encoding** (`encode_cname` and `encode_rdata`, lines 146-155). The record
  data is in the format of section 3.1 of RFC 1035: each label prefixed by its length, and a
  zero byte at the end.

The cluster API, HTTP and the YAML loader are replaced by an in-memory store, a `fetch`
parameter and abstract document values (`Documents.Value`). IDNA `ToASCII` is a parameter
of the DNS functions.

`url` appends the App object's own `port` (line 625) and the App object's own `path`
(line 628). `Publishing.UrlAppendsAppPort` states the consequence for the port.

Files:

- `wrappers.dfy`: `Option` and `Result`.
- `strings.dfy`: the Python 2 string operations used.
- `documents.dfy`: documents and errors.
- `sources.dfy`, `ordering.dfy`, `download.dfy`: downloading resources.
- `apps.dfy`: the App record and `display`.
- `discovery.dfy`: `app`, `source`, `subscribe`.
- `publishing.dfy`: `project`, `publish`, `url`.
- `store.dfy`: applying and deleting resources.
- `controller.dfy`: the pass.
- `proxy.dfy`: nginx files.
- `ingress.dfy`: `services`, `nginx`.
- `dns.dfy`, `configcache.dfy`.

## Model

| member | source | states |
|---|---|---|
| Sources.AsSource | lib/config.py:382-383 | the copy of `spec.source` that is updated must be a mapping; any other value is refused |
| Documents.Fields | lib/config.py:435 | the fields a loop over a document visits: a mapping's entries, none for an empty list or string, and any other value is refused |
| Sources.Merge | lib/config.py:382-383 | the merged source has the keys of both; manifest keys win, the rest keep `spec.source`'s values |
| Sources.ResolveCases | lib/config.py:387-404 | `url` is taken verbatim even beside `site`; github.com without `repo` raises; any other source raises; resolution succeeds exactly in the first two accepted shapes |
| Sources.ResolveGithub | lib/config.py:391-400 | a github.com source gives `https://raw.githubusercontent.com/<repo>/<version or master>/<path or klot-io-app.yaml>` |
| Sources.ResolveMerged | lib/config.py:380-400 | a manifest carrying only `path` keeps the App's repo and version; a manifest `url` overrides the App's github source |
| Sources.MatchApp | lib/config.py:434-438 | the empty filter matches without reading the source; otherwise a missing source raises KeyError, a mapping matches iff it holds every filter key with an equal value, a list or a string never matches and raises exactly when it holds a filter key (as an element or a substring), and any other value raises |
| Sources.OnlyMappingsMatch | lib/config.py:434-438 | a match needs the empty filter, or a mapping source holding every filter key with an equal value |
| Sources.MatchListAndString | lib/config.py:434-438 | `{repo: x/y}` does not match the list `[x/y]`, and raises on the string `a-repo` |
| Sources.MatchIgnoresExtraKeys | lib/config.py:434-438 | keys the filter does not name never stop a match |
| Sources.MatchMonotone | lib/config.py:434-438 | a part of a matching filter matches too, and every source matches itself |
| Sources.MatchNeedsEveryKey | lib/config.py:434-438 | a filter key the source lacks or holds with another value prevents the match |
| Sources.MatchExample | lib/config.py:434-438 | `{repo: x/y}` matches a source with an extra `version`, not one with another repo |
| Ordering.IndexOf | lib/config.py:415 | the first position of the item, or the length when it is absent |
| Ordering.PriorityCases | lib/config.py:32-41 | a kind ranks below `len(RESOURCES)` iff it is listed, and then ranks at its own position in `RESOURCES` |
| Ordering.InsertPermutes | lib/config.py:415 | inserting adds exactly the item to the multiset |
| Ordering.InsertOrdered | lib/config.py:415 | inserting into a sequence ordered by rank keeps it ordered |
| Ordering.SortOrdered | lib/config.py:415 | the sort orders by rank |
| Ordering.SortPermutes | lib/config.py:415 | the sort is a permutation |
| Ordering.SortStable | lib/config.py:415 | the items of each rank keep their input order |
| Ordering.SortByPriorityCorrect | lib/config.py:415 | sorting resources by RESOURCES position is ordered, a permutation and stable; unlisted kinds go last in fetch order |
| Ordering.SortIsApplyOrder | lib/config.py:415 | the sort equals the independent definition: the resources of rank 0, then rank 1, and so on, each in input order |
| Apps.LoadOne | lib/config.py:471 | a response of one document gives it, an empty one gives `None`, several raise |
| Apps.CheckDescriptor | lib/config.py:473-477 | a descriptor passes iff it is a mapping of exactly the four keys with `apiVersion: klot.io/v1` and `kind: App`; a missing `apiVersion` raises KeyError |
| Apps.FourKeys | lib/config.py:475 | four keys including the required four are those four |
| Apps.NewApp | lib/config.py:479-480 | the created App is stamped with the action and `Discovered`, keeps the descriptor's spec and name and has no lifecycle fields; it fails iff the name is missing or not a string |
| Apps.Label | lib/config.py:419-424 | the label holds the object's kind and name, and its namespace exactly when the namespace is present and truthy |
| Apps.Display | lib/config.py:417-426 | `display` succeeds exactly when the label can be taken |
| Apps.DisplayRoundTrip | lib/config.py:417-426 | splitting the displayed text at `/` gives back kind, namespace when present, and name |
| Apps.DisplayExample | lib/config.py:417-426 | `Service/ns/web`, and `Namespace/ns` for a null namespace |
| Store.Target | lib/config.py:654 | a resource can be applied iff it has a label and the client library knows its kind |
| Store.Reverse | lib/config.py:670 | `reversed`: position i holds the input's position from the end |
| Store.Keys | lib/config.py:652-659 | the keys a resource list writes are exactly its resources' labels |
| Store.KeysCons | lib/config.py:652-659 | a list applies iff its head and its tail do; its keys are the head's plus the tail's |
| Store.ApplyAllEffect | lib/config.py:652-659 | applying succeeds iff every resource can be applied; then the store gains exactly the resources' keys and keeps every other object |
| Store.ApplyAllWrites | lib/config.py:655-659 | after replace (or delete and create) a key holds the last resource written under it |
| Store.ApplyAllKeeps | lib/config.py:652-659 | objects under keys no resource names are untouched |
| Store.DeleteAllEffect | lib/config.py:670-672 | deleting succeeds iff every resource can be applied; then exactly their keys are gone |
| Store.ReverseApplicable | lib/config.py:670 | the reversed list is applicable iff the list is, with the same keys |
| Store.InstallThenUninstall | lib/config.py:652-672 | installing then uninstalling the same resources removes exactly their keys from the starting store |
| Downloads.ManifestUrl | lib/config.py:380-404 | a manifest's URL is the resolution of the manifest merged over `spec.source`; an empty list or string as the manifest adds nothing |
| Downloads.FetchManifest | lib/config.py:406-413 | a manifest succeeds iff its URL resolves and the GET answers 200, giving the response's documents |
| Downloads.SortKeys | lib/config.py:415 | the sort key can be taken iff every resource has a `kind` |
| Downloads.FetchAllConcat | lib/config.py:380-413 | the loop succeeds iff every manifest does, and extends the list by their documents in manifest order |
| Downloads.AllFetchCons | lib/config.py:380-413 | every manifest fetches iff the first does and the rest do |
| Downloads.DownloadOnce | lib/config.py:375-376 | an App that already has resources is returned unchanged |
| Downloads.DownloadFrame | lib/config.py:373-415 | `resources` is always set afterwards, and nothing else changes |
| Downloads.DownloadSucceeds | lib/config.py:373-415 | downloading succeeds iff `manifests` is a list, every manifest fetches and every document has a kind |
| Downloads.DownloadSorted | lib/config.py:378-415 | on success the resources are the fetched documents in apply order: a stable permutation |
| Downloads.DownloadPartial | lib/config.py:380-413 | when manifest k fails, the App keeps the documents of manifests 0..k-1 and the error is manifest k's |
| Downloads.FetchAllStops | lib/config.py:380-413 | the loop stops at the first failing manifest |
| Discovery.SearchFrom | lib/config.py:432-441 | the index found is the first whose source matches; a failure is a source that raised while searching |
| Discovery.Created | lib/config.py:443-484 | creation succeeds iff the filter resolves, the GET answers 200 with one well-formed descriptor and the App can be built; it is stamped Discovered with the action |
| Discovery.CreateApp | lib/config.py:482-484 | `create()` appends the App unless its name is taken, and changes nothing otherwise |
| Discovery.ReplaceApp | lib/config.py:518 | `replace()` overwrites the App of that name, and fails when none has it |
| Discovery.FindReturnsFirstMatch | lib/config.py:432-441 | `app` returns the first matching App and changes nothing; that App lacking a source raises KeyError at line 440, which a non-empty filter's match rules out |
| Discovery.EmptyFilterFindsFirst | lib/config.py:432-441 | the empty filter returns the first App, or raises KeyError at line 440 when that App has no source |
| Discovery.CreateWhenNoMatch | lib/config.py:443-484 | when nothing matches, `app` succeeds iff creation does and the name is free |
| Discovery.CreatedIsAppended | lib/config.py:443-484 | when nothing matches, a success appends the new App, stamped; a failure changes nothing |
| Discovery.FindOrCreateEvolves | lib/config.py:428-484 | `app` only ever appends one App, keeps names unique, and returns an App in the store |
| Discovery.CreatedNeedNotMatch | lib/config.py:432-482 | a created App need not match the filter that created it; searching again creates again and fails on the name |
| Discovery.Dependency | lib/config.py:494 | a dependency is only looked up when the App has an action (`obj["action"]`) |
| Discovery.SequenceSources | lib/config.py:432-441 | an empty list or string as a dependency's source filters nothing, as `{}` does, so the first App is found; a non-empty one is refused |
| Discovery.SubscribeAll | lib/config.py:506-528 | one subscription and one dependency per entry handled; all entries on success |
| Discovery.ReplaceAt | lib/config.py:518 | replacing an App by name rewrites its own position and keeps names unique |
| Discovery.InstallingKept | lib/config.py:512-518 | a dependency asked to install stays so while the store evolves |
| Discovery.DependencyEvolves | lib/config.py:494 | looking up a dependency only appends, keeps install requests, and returns an App in the store |
| Discovery.RecordEvolves | lib/config.py:512-524 | a dependency neither Installed nor Error is set to Install and replaced when the App installs |
| Discovery.SubscribeOneEvolves | lib/config.py:508-528 | one entry only appends, keeps install requests, and leaves an asked dependency installing |
| Discovery.SubscribeAllEvolves | lib/config.py:506-528 | all entries only append and leave every asked dependency installing |
| Discovery.SubscribeAllCons | lib/config.py:506-528 | the entries are handled in order, the first one's subscription first |
| Discovery.SubscribeAllStops | lib/config.py:506-528 | the first failing entry stops the loop |
| Discovery.SubscribeOneRecords | lib/config.py:520-524 | an entry records `{name, app, project}` from the entry and the dependency's name; `project` is required |
| Discovery.SubscribeAllRecords | lib/config.py:504-528 | the subscriptions are one per handled entry, in spec order |
| Discovery.SubscribeAllReports | lib/config.py:500-530 | on success `subscribed` is true iff every dependency is Installed |
| Discovery.SourceAllEvolves | lib/config.py:486-496 | pre-creating dependencies only appends Apps |
| Discovery.SourceAllAppends | lib/config.py:486-496 | sourcing keeps the store as a prefix |
| Discovery.SourcedStored | lib/config.py:486-496 | once sourcing succeeds, the dependency of every entry, found or created at its turn, has a source (line 496) and is in the store afterwards |
| Discovery.DependencyAppends | lib/config.py:494 | looking up a dependency keeps the store as a prefix and returns an App in it |
| Discovery.StillAskedTransitive | lib/config.py:512-518 | the only change other Apps' processing makes to an App, being asked to install, composes |
| Discovery.RecordAsks | lib/config.py:512-524 | recording a dependency changes at most that App, and only by asking it to install when it is neither Installed nor Error |
| Discovery.SubscribeOneAsks | lib/config.py:508-528 | one entry only appends Apps and asks its dependency to install |
| Discovery.SubscribeAllAsks | lib/config.py:506-528 | subscribing only appends Apps and asks dependencies to install; no App changes otherwise |
| Discovery.SubscribeWithoutDependencies | lib/config.py:500-502 | with no `subscribe`, nothing is recorded and the answer is true |
| Publishing.NamedPort | lib/config.py:592-595 | a port is found only when some port has the name |
| Publishing.NamedPortLast | lib/config.py:593-595 | with no `break`, the last port of that name wins |
| Publishing.NamedPortNone | lib/config.py:592-595 | no port of that name leaves `port` unset |
| Publishing.ServiceOf | lib/config.py:586-588 | the Service is the store's object under its namespace and name |
| Publishing.ServiceFields | lib/config.py:584-598 | a service publishes `host = <name>.<namespace>`, `port` only when asked, and `ingress: true` iff the type is LoadBalancer |
| Publishing.PublishError | lib/config.py:579-587 | an entry that cannot be published raises its fields' error, or else the error of reading its Service |
| Publishing.EmptyEntryPublishesNothing | lib/config.py:577-606 | an empty list or string as an entry can be published, and its publication is `{}` |
| Publishing.PublishedWithoutClash | lib/config.py:580-602 | with no field clash a publication is the literal fields plus the service fields |
| Publishing.NeedsPort | lib/config.py:621-624 | a port suffix is needed iff http is not on 80 or https not on 443; a missing port raises |
| Publishing.UrlDefaultPort | lib/config.py:619-624 | http on 80 and https on 443 give `<protocol>://<host>.<node>.local` |
| Publishing.UrlAppendsAppPort | lib/config.py:621-625 | another port appends the App object's `port`, and raises when the App has none |
| Publishing.UrlSkipsOthers | lib/config.py:615-617 | a publication of another name sets no URL |
| Publishing.UrlAllFrame | lib/config.py:608-630 | `url` changes only the App's `url` |
| Publishing.UrlFromIgnoresUrl | lib/config.py:616-628 | what a publication writes does not depend on the URL already set |
| Publishing.UrlAllLast | lib/config.py:614-628 | without a `break`, a loop that raises nothing leaves the URL of the last publication that writes one, or the App's own URL when none does |
| Publishing.FirstPublication | lib/config.py:548-550 | the publication found is one of the App's with the projected name; none found means none has it |
| Publishing.AppNamed | lib/config.py:546 | `get(name=...)` returns the App of that name, and fails only when none has it |
| Publishing.WithEntry | lib/config.py:552-563 | the ConfigMap gains `data[key]` holding the publication and keeps every other entry |
| Publishing.JsonKey | lib/config.py:553-565 | the ConfigMap key as the JSON of `replace()` writes it: a string as itself, an integer in decimal (reading back as that integer), `true`/`false`/`null`; a list or mapping key raises TypeError |
| Publishing.JsonKeysDiffer | lib/config.py:553-565 | two keys that are not strings and are written under one name are the same key |
| Publishing.IntKeyExample | lib/config.py:553-565 | `key: 8080` is written as `"8080"` |
| Publishing.ProjectWrites | lib/config.py:537-567 | projecting either changes nothing or rewrites only the named ConfigMap, with the publication of the projected name under its key as JSON writes it |
| Publishing.ProjectAllKeys | lib/config.py:537-567 | projecting never adds or removes objects |
| Publishing.ProjectJsonFails | lib/config.py:560-561 | a json projection of a found publication always raises, since `json` is never imported |
| Controller.MatchSource | lib/config.py:434-438 | the match loop computes the subset match |
| Controller.FindPublication | lib/config.py:548-550 | the loop finds the first publication of the projected name |
| Controller.Defaulted | lib/config.py:638-642 | a missing status becomes Discovered, a missing action Download; nothing else changes |
| Controller.Fetched | lib/config.py:644-647 | the App gets the resources `Download` computes; the outcome succeeds iff the download and the sourcing both do, and then the App is Downloaded, otherwise its status is kept; the store only gains Apps |
| Controller.SourcingEvolves | lib/config.py:486-496 | sourcing keeps names unique, keeps Apps in error and every other App as it was, and only appends |
| Controller.Rounds | lib/config.py:634-689 | appending a round whose App is written back by name keeps the rounds chained and keeps every written App as reconciled or asked to install |
| Controller.ErrorsStay | lib/config.py:634-689 | a round keeps the listed Apps in Error as the pass left them |
| Controller.Cluster.constructor | lib/config.py:632-634 | the cluster holds the given Apps and objects |
| Controller.Cluster.Replace | lib/config.py:518 | the App store after `replace()` is as `ReplaceApp` says |
| Controller.Cluster.FindApp | lib/config.py:428-484 | `app` updates the store and answers as `FindOrCreate` says, including the KeyError of line 440 for a found App without source |
| Controller.Cluster.Depend | lib/config.py:494 | a dependency lookup as `Dependency` says |
| Controller.Cluster.Source | lib/config.py:486-496 | `source` pre-creates dependencies as `Sourcing` says, raising KeyError at line 496 for a dependency without source, and only appending Apps |
| Controller.Cluster.SubscribeEntry | lib/config.py:508-528 | one entry as `SubscribeOne` says |
| Controller.Cluster.RecordDependency | lib/config.py:512-524 | the install request and the record as `Record` says |
| Controller.Cluster.SubscribeLoop | lib/config.py:506-528 | the loop's store, subscriptions, answer and failure are those of `SubscribeAll` |
| Controller.Cluster.Subscribe | lib/config.py:498-530 | `subscribe` returns true iff every dependency is Installed; it records one subscription per entry in order; it asks every dependency that is neither Installed nor Error to install |
| Controller.Cluster.Resources | lib/config.py:373-415 | `resources` as `Download` says |
| Controller.Cluster.Apply | lib/config.py:652-659 | the install loop leaves the store `ApplyAll` describes |
| Controller.Cluster.Delete | lib/config.py:670-672 | the uninstall loop deletes in reverse order, as `DeleteAll` of the reversed list says |
| Controller.Cluster.ProjectSubscription | lib/config.py:539-567 | one subscription as `ProjectOne` says; a failure writes nothing |
| Controller.Cluster.Project | lib/config.py:532-567 | without subscriptions nothing happens; otherwise as `ProjectAll` says |
| Controller.Cluster.ServiceFieldsOf | lib/config.py:584-598 | the service fields as `ServiceFields` says |
| Controller.Cluster.PublishEntry | lib/config.py:576-606 | an entry publishes iff it is publishable (a mapping, or an empty list or string), the result is `Published` from it, and a failure raises `PublishError` |
| Controller.Cluster.Publish | lib/config.py:569-606 | as `Publishes` states: without `publish` the App is unchanged; otherwise it gets one publication per entry, in order, up to the first entry that cannot be published, whose `PublishError` is the outcome, and nothing else changes |
| Controller.Cluster.Url | lib/config.py:608-630 | `url` as `Publishing.Url` says, changing only `url` |
| Controller.Cluster.InstallApp | lib/config.py:649-665 | as `Installs` states: a label or resources failure changes nothing; otherwise the objects become `ApplyAll`'s, then `ProjectAll`'s when the App has subscriptions, and the App is published and given its URL as `Publishes` and `Publishing.Url` compute; the first failing step ends it, and the App is Installed exactly when none fails |
| Controller.Cluster.Offer | lib/config.py:662-663 | `publish` then `url`: the publications are as `Publishes` states, and when publishing succeeds the URL and outcome are those of `Publishing.Url` over them; only publications and url change |
| Controller.Cluster.UninstallApp | lib/config.py:666-682 | as `Uninstalls` states: the resources are deleted in reverse order as `DeleteAll` says; success iff the label can be taken and every resource applies, and then exactly their keys are gone and the App is Downloaded with action Download, without subscriptions, publications or url; a failure keeps the App and the deletions done |
| Controller.Cluster.Fetch | lib/config.py:644-647 | App, store and outcome are those of `Fetched`: resources always set (kept when present), Downloaded exactly when the download and the sourcing succeed |
| Controller.Cluster.Act | lib/config.py:649-682 | as `Acts` states: an App asked to install subscribes, and installs when every dependency is Installed; an installed App asked to uninstall uninstalls; otherwise nothing changes. A failure keeps the status; an install that succeeds with every dependency Installed gives Installed; an uninstall succeeds iff its label and resources allow it, giving Downloaded |
| Controller.Cluster.Prepare | lib/config.py:638-649 | the App, store and outcome are those of `Prepared`: the defaults, then `Fetched` when the App is Discovered without resources |
| Controller.Cluster.Conclude | lib/config.py:649-687 | as `Concludes` states: a failed download marks the App in Error with the reason; otherwise it acts, and a failure of the action marks it in Error with the reason; Installed only with every dependency Installed, Downloaded from Installed only by a complete uninstall |
| Controller.Cluster.ConcludesFrom | lib/config.py:649-687 | acting on a prepared App and marking a failure as Error is what `Concludes` describes |
| Controller.Cluster.Reconcile | lib/config.py:636-687 | as `Reconciles` states: defaults, download when Discovered without resources, then the action, the first failure giving Error with the reason. Every status change is an allowed `Transition`; an App asked to install that ends neither in Error nor short of Installed dependencies is Installed; an uninstall gives Downloaded iff its label and resources allow it, else Error; a download gives Downloaded iff `Fetched` succeeds, else Error; an App in Error is only defaulted |
| Controller.Cluster.Pass | lib/config.py:632-689 | every App listed at the start is reconciled from the store and objects the previous one left (`Chained`, `Reconciled`) and written back under its name after an allowed transition; the final store holds the written Apps, or those Apps asked to install since; Apps in Error are only defaulted |
| Controller.Cluster.ReconciledNext | lib/config.py:634-689 | a round that reconciles the next listed App extends `Reconciled` |
| Controller.Cluster.ReconcileListed | lib/config.py:636-687 | one App reconciled as `Reconciles` states, keeping its name, with an allowed transition, and an App in Error only defaulted |
| Controller.Cluster.PassOne | lib/config.py:634-689 | one round of the pass: the next listed App is reconciled and written back, and the pass's promise (`PassInvariant`, `Reconciled`) extends to it |
| Controller.Cluster.PassStep | lib/config.py:634-689 | one round keeps what the pass promises: names, transitions, Apps in Error, the written Apps in the store, and the chain of rounds |
| Controller.WrittenBack | lib/config.py:634-689 | writing one App back keeps the pass's promise about the Apps before it |
| Proxy.AsRead | lib/config.py:706-711 | a proxy read back has its ip and the same servers |
| Proxy.Seen | lib/config.py:713 | the expected map as the reader would see it, over the same hosts |
| Proxy.ServerLines | lib/config.py:43-54 | one `SERVER` block is eleven lines |
| Proxy.RenderServers | lib/config.py:718-721 | a host file holds one block per server |
| Proxy.ListenPort | lib/config.py:704 | the `listen` port read from a line is an integer |
| Proxy.ReadLine | lib/config.py:702-711 | a line adds at most one server and keeps earlier ones; only `listen` lines change the port, only `proxy_pass` lines the site |
| Proxy.ReadFile | lib/config.py:701-711 | the line loop computes `ParseFile` |
| Proxy.Written | lib/config.py:716-721 | the rewritten directory holds each expected host's rendering under `<host>.conf` |
| Proxy.FileNamesDiffer | lib/config.py:719 | different hosts get different file names |
| Proxy.ReadPlain | lib/config.py:702-711 | a line with neither keyword changes nothing |
| Proxy.ReadListen | lib/config.py:703-704 | a rendered `listen` line sets the external port |
| Proxy.ReadProxy | lib/config.py:705-711 | a rendered `proxy_pass` line reads back protocol, ip and internal port |
| Proxy.ProxyLineFields | lib/config.py:707-711 | the splits of lines 707-711 recover protocol, internal port and ip |
| Proxy.ReadServer | lib/config.py:43-54 | one rendered block reads back as its server |
| Proxy.ReadServers | lib/config.py:718-721 | the blocks of a host read back as its servers, in order |
| Proxy.ParseRender | lib/config.py:43-54 | the file rendered for a host reads back as its proxy |
| Proxy.FileNameRead | lib/config.py:697 | the host read from `<host>.conf` is the host |
| Proxy.WrittenGlobbed | lib/config.py:716-721 | after the rewrite every `.conf` file is an expected host's |
| Proxy.ReadsUnique | lib/config.py:695-711 | when each host has one file, reading the directory has one outcome |
| Proxy.WrittenHosts | lib/config.py:716-721 | the hosts of the rewritten directory are exactly the expected ones |
| Proxy.WrittenUnambiguous | lib/config.py:716-721 | the rewritten directory has one file per host |
| Proxy.WrittenParses | lib/config.py:716-721 | every rewritten file reads without error |
| Proxy.NamedPortUnreadable | lib/config.py:705-709 | a rendered `proxy_pass` line with a named internal port raises ValueError at `int()` |
| Proxy.NamedPortBlockUnreadable | lib/config.py:702-709 | the block of a server with a named internal port stops the reading at that line |
| Proxy.NamedPortFileUnreadable | lib/config.py:701-711 | the file of a host whose first server has a named internal port does not read back |
| Proxy.NamedPortExample | lib/config.py:701-711 | a host `web` with one server `http`, port 80, `targetPort: http` does not read back |
| Proxy.WrittenReadsBack | lib/config.py:713-721 | reading the rewritten directory gives the expected map as seen: the next pass finds no difference |
| Ingress.Served | lib/config.py:747-757 | a server needs `port` and `targetPort`, copied as external and internal |
| Ingress.PortServer | lib/config.py:743-757 | a named port gives an https or http server, or none |
| Ingress.PortServers | lib/config.py:741-757 | at most one server per port, each http or https |
| Ingress.ServersOf | lib/config.py:739-757 | the port loop computes `PortServers` |
| Ingress.HttpsFirst | lib/config.py:746-751 | a name starting with https also starts with http, yet is https |
| Ingress.NoHttpPorts | lib/config.py:743-760 | ports with no http* name give no servers |
| Ingress.NodeIps | lib/config.py:764-769 | the node map only grows |
| Ingress.NodeIpsOf | lib/config.py:762-769 | the pod loop computes `NodeIps` |
| Ingress.NodeIpsNodes | lib/config.py:768-769 | the nodes are exactly those of pods with both a nodeName and a podIP |
| Ingress.ElectedUnique | lib/config.py:771 | at most one node sorts first |
| Ingress.ElectedExists | lib/config.py:771 | a non-empty node set has a first node |
| Ingress.Offered | lib/config.py:730-786 | only eligible Services are offered |
| Ingress.IneligibleSkipped | lib/config.py:732-737 | a Service that is not a LoadBalancer with ports, selector and namespace is skipped |
| Ingress.OfferedParts | lib/config.py:739-786 | an offer has servers, this node is elected among its pods' nodes, the ip is this node's pod ip, and the host is `<name>.<namespace>.<cluster>-klot-io.local` |
| Ingress.OneNodePublishes | lib/config.py:771-772 | no two nodes both publish a Service |
| Ingress.OfferedProtocols | lib/config.py:739-760 | an offer has at least one server and renderable protocols |
| Ingress.Wanted | lib/config.py:727-786 | the wanted map only grows over the Services |
| Ingress.WantedHasEvery | lib/config.py:782-786 | every offered host is wanted |
| Ingress.WantedOnlyOffered | lib/config.py:782-786 | every wanted host was offered by some Service |
| Ingress.WrittenStable | lib/config.py:713-723 | after a rewrite, the same expected map finds nothing to change |
| Ingress.NamedTargetPortWedges | lib/config.py:701-721 | once a host whose first server has a named `targetPort` is written, the directory no longer parses, so by `Nginx` every later call fails and leaves it unchanged |
| Ingress.Publisher.constructor | lib/config.py:70 | no cnames, nothing announced or reloaded yet |
| Ingress.Publisher.Offer | lib/config.py:730-786 | one Service's offer as `Offered` says |
| Ingress.Publisher.ReadConf | lib/config.py:693-711 | reading succeeds iff every file parses, giving what the directory reads as |
| Ingress.Publisher.Nginx | lib/config.py:691-723 | fails iff some file does not parse, changing nothing; rewrites and reloads when the read map differs from the expected, and never when stable |
| Ingress.Publisher.Services | lib/config.py:725-793 | cnames become the wanted hosts; avahi is re-run iff they changed; then nginx as above |
| Dns.Ascii | lib/config.py:153 | `ToASCII` of a label, raising when it does |
| Dns.Labels | lib/config.py:148 | the labels are non-empty and hold no dot |
| Dns.AsciiAll | lib/config.py:148 | every label converts iff the list does; pointwise values |
| Dns.RdataDecodes | lib/config.py:151-155 | the record data exists iff every label converts and is at most 255 long, and reads back as the ASCII labels |
| Dns.RdataMatchesCname | lib/config.py:146-155 | record data implies a CNAME, and its labels joined by dots are the CNAME |
| Dns.LabelsOfDotted | lib/config.py:148 | `a.b` has labels `a`, `b` |
| Dns.LabelsOfEmptyParts | lib/config.py:148 | empty parts are dropped |
| Dns.RdataExample | lib/config.py:151-155 | `a.b` encodes as 1 a 1 b 0 |
| Dns.CnameExample | lib/config.py:147-148 | `a..b.` becomes `a.b` |
| ConfigCache.Loader.constructor | lib/config.py:64-66 | empty config, times and modified list |
| ConfigCache.Loader.Load | lib/config.py:115-130 | only configurations of files change. With one file per configuration: all times are recorded, exactly the stale files are loaded, and `modified` names each reloaded configuration once |
| ConfigCache.LoadSettles | lib/config.py:119-129 | loading again from an unchanged folder loads nothing |
| ConfigCache.ChangedFileLoads | lib/config.py:121-130 | a file whose time changed is loaded |

## Left out

- The operating-system bootstrap is not part of this model: `reset`, `restart`, `reload`,
  `account`, `network`, `host`, `kubernetes`, `clean`, `process`, `run`, the shell
  commands, the sleeps and the poll loop. Only one pass is modelled.
- `avahi()` talks D-Bus. The model only counts its invocations (`announcements`). The
  `systemctl reload nginx` of line 723 is likewise a count (`reloads`).
- YAML and JSON texts are abstract:
  - `yaml.safe_load_all` of a response is the response's document list;
  - `yaml.safe_dump` is the value `YamlText`;
  - `differs` and the printing are left out.
- IDNA `ToASCII` is a parameter. Python 2 `chr` fails above 255, and the model raises
  exactly there.
- pykube is an in-memory store:
  - `resourceVersion` conflicts are not modelled, and writes never fail.
  - Replace, or delete then create, collapses to one overwrite. Deleting an absent object
    succeeds.
  - A missing namespace is the empty string.
  - `create` fails only on a taken App name.
- Controller.Cluster.Pass: the write-back at line 689 sits outside the `try`. It is modelled
  as an overwrite that cannot fail. The object written is the copy listed when the pass
  began plus this App's own changes, so the model does not show an error there ending the
  whole pass.
- Each `Err` names one cause. The traceback text of line 686 is not modelled.
- A `spec` that is not a mapping holds no keys.
- A `manifests`, `subscribe` or `publish` value that is not a list raises `WrongType`.
  Python iterates a mapping's keys or a string's characters, and an empty mapping or
  string runs no iteration at all.
- Discovery.Dependency: a source filter is a mapping, an empty list or an empty string
  (`Documents.Fields`). A non-empty list or string is refused with `WrongType`. Python
  raises too, but the exception can be the "cannot preview" of line 462 rather than a
  TypeError. The one exception is a list of integers that index an App's list-valued
  `spec.source`, which Python can match; the model does not.
- Controller.Cluster.PublishEntry: a non-empty list or string entry is refused with
  `WrongType`. Python raises too, except for a list whose elements are all in-range
  integers, which builds a publication keyed by those integers. The model's keys are
  strings, so it does not represent that case.
- Downloads.ManifestUrl: `dict.update` also accepts a list of key-value pairs as the
  manifest. The model refuses a non-empty list.
- Publishing.JsonKey: a key that is not a string and whose JSON text equals a key already
  in `data` (`8080` beside `"8080"`) makes Python send both. The model keeps one entry,
  the new one. A dumped YAML text as a key is refused, because the model does not hold
  its characters.
- Documents.Format renders a list as `[...]` and a mapping as `{...}`, not as Python's
  `repr`. This matters only where such a value is formatted into a URL, a host name or a
  ConfigMap key.
- Proxy: lines are modelled without their terminators. Host names with `/`, `.conf` or
  `listen` in them are outside the round-trip lemmas.
- Proxy.ParseRender: the round trip needs integer `port` and `targetPort` values and a pod
  IP without `:` or `/` (`Proxy.Renderable`).
  - A named `targetPort` makes the file unreadable (`Proxy.NamedPortFileUnreadable`).
  - An IPv6 pod IP reads back cut at its first `:`, so it never compares equal and the file
    is rewritten on every pass.
- Ingress.NodeIps: a `nodeName` that is not a string raises `WrongType`. Python 2 would
  sort such mixed names; the model does not.
- Documents compare structurally, so Python's `True == 1` does not hold between them.
- Publishing.ProjectAllKeys: the `"project" not in subscription` skip of line 539 never
  fires, because `subscribe` always records `project`.
- ConfigCache.Loader.Load:
  - Modification times are integers, while `os.path.getmtime` returns a float. Line 121
    only compares them for equality, so the model keeps that comparison.
  - An unreadable file and a `yaml.safe_load` failure are not modelled.
  - When two files name the same configuration (`a.yaml` and `a.b.yaml`), only the
    frame guarantee `Kept` is stated, because the last file visited wins in glob order.
- The file system's glob order, Python's dict order and the set order are nondeterministic
  choices in the model.
