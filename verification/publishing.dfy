/**
 * What an installed App offers and consumes (lib/config.py:532-630): the publications it
 * builds from literal fields and Services (`publish`), the external URL it derives from
 * one of them (`url`), and the ConfigMap entry a subscriber gets for each publication it
 * projects (`project`).
 */
module Publishing {
  import opened Wrappers
  import opened Strings
  import opened Documents
  import opened Apps
  import opened Store

  // ---------------------------------------------------------------------------
  // publish (lines 569-606)

  /**
   * The ports loop of lines 593-595 from the front: every port whose name equals `want`
   * overwrites the result, there is no `break`.
   */
  function NamedPort(ports: seq<Value>, want: Value, found: Option<Value>): (r: Result<Option<Value>, Err>)
    ensures r.Success? && r.value.None? ==> found.None?
    decreases |ports|
  {
    if ports == [] then Success(found)
    else if Has(ports[0], "name") && ports[0].entries["name"] == want then
      var port :- Get(ports[0], "port");
      NamedPort(ports[1..], want, Some(port))
    else NamedPort(ports[1..], want, found)
  }

  predicate PortNamed(port: Value, want: Value) {
    Has(port, "name") && port.entries["name"] == want
  }

  /** The last port named `want` is the one published. */
  lemma {:induction false} NamedPortLast(ports: seq<Value>, want: Value, found: Option<Value>, j: nat)
    requires j < |ports| && PortNamed(ports[j], want) && Has(ports[j], "port")
    requires forall k :: j < k < |ports| ==> !PortNamed(ports[k], want)
    requires forall k :: 0 <= k < j && PortNamed(ports[k], want) ==> Has(ports[k], "port")
    ensures NamedPort(ports, want, found) == Success(Some(ports[j].entries["port"]))
    decreases |ports|
  {
    var rest := ports[1..];
    assert forall k :: 0 <= k < |rest| ==> rest[k] == ports[k + 1];
    if j == 0 {
      NamedPortNone(rest, want, Some(ports[0].entries["port"]));
    } else {
      var next := if PortNamed(ports[0], want) then Some(ports[0].entries["port"]) else found;
      NamedPortLast(rest, want, next, j - 1);
    }
  }

  /** With no port of that name the result is what was found before. */
  lemma {:induction false} NamedPortNone(ports: seq<Value>, want: Value, found: Option<Value>)
    requires forall k :: 0 <= k < |ports| ==> !PortNamed(ports[k], want)
    ensures NamedPort(ports, want, found) == Success(found)
    decreases |ports|
  {
    if ports != [] {
      assert forall k :: 0 <= k < |ports[1..]| ==> ports[1..][k] == ports[k + 1];
      NamedPortNone(ports[1..], want, found);
    }
  }

  /** `pykube.Service.objects(...).filter(namespace=...).get(name=...)` for `spec["service"]`. */
  function ServiceOf(objects: Objects, service: Value): (r: Result<Value, Err>)
    ensures r.Success? ==> Has(service, "namespace") && Has(service, "name") &&
                           service.entries["namespace"].Str? && service.entries["name"].Str? &&
                           var key := Key("Service", service.entries["namespace"].s, service.entries["name"].s);
                           key in objects && r.value == objects[key]
  {
    var namespace :- GetStr(service, "namespace");
    var name :- GetStr(service, "name");
    var key := Key("Service", namespace, name);
    if key in objects then Success(objects[key]) else Failure(NotFound("Service", namespace, name))
  }

  /**
   * The fields a `service` entry contributes (lines 583-600): `host` is `name.namespace` of
   * the Service, `port` the port of the last port named as asked, `ingress` true when the
   * Service is a LoadBalancer.
   */
  function ServiceFields(objects: Objects, service: Value): (r: Result<Publication, Err>)
    ensures r.Success? ==> "host" in r.value && r.value.Keys <= {"host", "port", "ingress"}
    ensures r.Success? ==> ("port" in r.value ==> Has(service, "port"))
    ensures r.Success? ==>
              ServiceOf(objects, service).Success? &&
              var s := ServiceOf(objects, service).value;
              Has(s, "metadata") && Has(s.entries["metadata"], "name") && Has(s.entries["metadata"], "namespace") &&
              Has(s, "spec") && Has(s.entries["spec"], "type") &&
              r.value["host"] == Str(Format(s.entries["metadata"].entries["name"]) + "." + Format(s.entries["metadata"].entries["namespace"])) &&
              ("ingress" in r.value <==> s.entries["spec"].entries["type"] == Str("LoadBalancer")) &&
              ("ingress" in r.value ==> r.value["ingress"] == Bool(true))
  {
    var s :- ServiceOf(objects, service);
    var metadata :- Get(s, "metadata");
    var name :- Get(metadata, "name");
    var namespace :- Get(metadata, "namespace");
    var port :- if Has(service, "port") then
                  var spec :- Get(s, "spec");
                  var ports :- Get(spec, "ports");
                  if ports.List? then NamedPort(ports.items, service.entries["port"], None) else Failure(WrongType("ports"))
                else Success(None);
    var spec :- Get(s, "spec");
    var kind :- Get(spec, "type");
    Success(map["host" := Str(Format(name) + "." + Format(namespace))]
            + (if port.Some? then map["port" := port.value] else map[])
            + (if kind == Str("LoadBalancer") then map["ingress" := Bool(true)] else map[]))
  }

  /**
   * The publication built from one `spec.publish` entry, whatever order its fields are
   * visited in: every field but `service` is copied, the Service's fields are added, and
   * where a literal field and a Service field share a name either may end up in it.
   */
  predicate PublishedFrom(entry: map<string, Value>, fields: Publication, p: Publication) {
    if "service" !in entry then p == entry
    else
      p.Keys == (entry.Keys - {"service"}) + fields.Keys &&
      (forall f :: f in entry && f != "service" && f !in fields ==> p[f] == entry[f]) &&
      (forall f :: f in fields && f !in entry ==> p[f] == fields[f]) &&
      (forall f :: f in fields && f in entry ==> p[f] == fields[f] || p[f] == entry[f])
  }

  /** `PublishedFrom` part way through: the fields in `done` have been visited, in some order. */
  predicate PublishedSoFar(entry: map<string, Value>, fields: Publication, done: set<string>, p: Publication) {
    if "service" !in done then p.Keys == done && forall f :: f in done ==> f in entry && p[f] == entry[f]
    else
      p.Keys == (done - {"service"}) + fields.Keys &&
      (forall f :: f in done && f != "service" && f !in fields ==> f in entry && p[f] == entry[f]) &&
      (forall f :: f in fields && f !in done ==> p[f] == fields[f]) &&
      (forall f :: f in fields && f in done ==> f in entry && (p[f] == fields[f] || p[f] == entry[f]))
  }

  lemma PublishedSoFarField(entry: map<string, Value>, fields: Publication, done: set<string>, p: Publication, f: string)
    requires PublishedSoFar(entry, fields, done, p) && f in entry && f !in done && f != "service"
    ensures PublishedSoFar(entry, fields, done + {f}, p[f := entry[f]])
  {
  }

  lemma PublishedSoFarService(entry: map<string, Value>, fields: Publication, done: set<string>, p: Publication)
    requires PublishedSoFar(entry, fields, done, p) && "service" in entry && "service" !in done
    ensures PublishedSoFar(entry, fields, done + {"service"}, p + fields)
  {
  }

  lemma PublishedSoFarDone(entry: map<string, Value>, fields: Publication, p: Publication)
    requires PublishedSoFar(entry, fields, entry.Keys, p)
    ensures PublishedFrom(entry, fields, p)
  {
  }

  /**
   * A `spec.publish` entry can be published: its fields can be visited (a mapping, or an
   * empty list or string, which has none) and its Service, if it names one, can be read.
   */
  predicate Publishable(objects: Objects, entry: Value) {
    Fields(entry, "publish").Success? &&
    var fields := Fields(entry, "publish").value;
    "service" in fields ==> ServiceFields(objects, fields["service"]).Success?
  }

  /** `p` is a publication built from `entry` against the Services in `objects`. */
  predicate Published(objects: Objects, entry: Value, p: Publication) {
    Publishable(objects, entry) &&
    var fields := Fields(entry, "publish").value;
    PublishedFrom(fields, if "service" in fields then ServiceFields(objects, fields["service"]).value else map[], p)
  }

  /** The exception an entry that cannot be published raises: its fields' or its Service's. */
  function PublishError(objects: Objects, entry: Value): (e: Err)
    requires !Publishable(objects, entry)
    ensures Fields(entry, "publish").Failure? ==> e == Fields(entry, "publish").error
    ensures Fields(entry, "publish").Success? ==>
              ("service" in Fields(entry, "publish").value &&
               e == ServiceFields(objects, Fields(entry, "publish").value["service"]).error)
  {
    match Fields(entry, "publish")
    case Failure(e) => e
    case Success(fields) => ServiceFields(objects, fields["service"]).error
  }

  /** An empty list or string as an entry has no field to visit: its publication is empty. */
  lemma EmptyEntryPublishesNothing(objects: Objects, entry: Value, p: Publication)
    requires entry == List([]) || entry == Str("")
    ensures Publishable(objects, entry)
    ensures Published(objects, entry, p) <==> p == map[]
  {
  }

  /** Without a name clash the publication is the entry's literal fields plus the Service's. */
  lemma PublishedWithoutClash(entry: map<string, Value>, fields: Publication, p: Publication)
    requires "service" in entry && fields.Keys !! entry.Keys && PublishedFrom(entry, fields, p)
    ensures p == (entry - {"service"}) + fields
  {
  }

  // ---------------------------------------------------------------------------
  // url (lines 608-630)

  /** `protocol == "http" and port != 80 or protocol == "https" and port != 443`, reading the port only when asked. */
  function NeedsPort(pub: Publication): (r: Result<bool, Err>)
    requires "protocol" in pub
    ensures r.Success? <==> ((pub["protocol"] == Str("http") || pub["protocol"] == Str("https")) ==> "port" in pub)
    ensures r.Success? ==> (r.value <==> (pub["protocol"] == Str("http") && pub["port"] != Int(80)) ||
                                         (pub["protocol"] == Str("https") && pub["port"] != Int(443)))
  {
    var protocol := pub["protocol"];
    if protocol == Str("http") then
      if "port" !in pub then Failure(MissingKey("port")) else Success(pub["port"] != Int(80))
    else if protocol == Str("https") then
      if "port" !in pub then Failure(MissingKey("port")) else Success(pub["port"] != Int(443))
    else Success(false)
  }

  /**
   * What one publication does to `obj["url"]`: nothing unless its name is the one `spec.url`
   * asks for; otherwise the base URL, then the App's own `port` (line 625) and `path`
   * (line 628) appended. The first component is what `obj["url"]` was last set to, which a
   * later failure does not undo.
   */
  function UrlFrom(obj: App, pub: Publication, node: string): (Option<string>, Result<(), Err>) {
    match obj.SpecGet("url")
    case Failure(e) => (None, Failure(e))
    case Success(spec) =>
      match Get(spec, "publication")
      case Failure(e) => (None, Failure(e))
      case Success(want) =>
        if "name" !in pub then (None, Failure(MissingKey("name")))
        else if want != pub["name"] then (None, Success(()))
        else if "protocol" !in pub then (None, Failure(MissingKey("protocol")))
        else if "host" !in pub then (None, Failure(MissingKey("host")))
        else
          var base := Format(pub["protocol"]) + "://" + Format(pub["host"]) + "." + node + ".local";
          match NeedsPort(pub)
          case Failure(e) => (Some(base), Failure(e))
          case Success(needs) =>
            if needs && obj.Other("port").Failure? then (Some(base), Failure(obj.Other("port").error))
            else
              var withPort := if needs then base + ":" + Format(obj.Other("port").value) else base;
              if !Has(spec, "path") then (Some(withPort), Success(()))
              else if obj.Other("path").Failure? then (Some(withPort), Failure(obj.Other("path").error))
              else (Some(withPort + "/" + Format(obj.Other("path").value)), Success(()))
  }

  /** The publications loop from the front, without a `break`: the last matching publication sets the URL. */
  function UrlAll(obj: App, pubs: seq<Publication>, node: string): (App, Result<(), Err>)
    decreases |pubs|
  {
    if pubs == [] then (obj, Success(()))
    else
      var (written, r) := UrlFrom(obj, pubs[0], node);
      var next := if written.Some? then obj.(url := written) else obj;
      if r.Failure? then (next, r) else UrlAll(next, pubs[1..], node)
  }

  /** `url(obj)`: nothing without `spec.url` or publications. */
  function Url(obj: App, node: string): (App, Result<(), Err>) {
    if !obj.SpecHas("url") || obj.publications.None? then (obj, Success(()))
    else UrlAll(obj, obj.publications.value, node)
  }

  /**
   * The default port of the protocol is elided: an https publication on 443 (or http on 80)
   * gives `protocol://host.node.local`.
   */
  lemma UrlDefaultPort(obj: App, protocol: string, host: string, node: string)
    requires obj.SpecHas("url") && obj.spec.entries["url"] == Dict(map["publication" := Str("web")])
    requires protocol == "http" || protocol == "https"
    ensures var port := if protocol == "http" then 80 else 443;
            var pub := map["name" := Str("web"), "protocol" := Str(protocol), "host" := Str(host), "port" := Int(port)];
            UrlFrom(obj, pub, node) == (Some(protocol + "://" + host + "." + node + ".local"), Success(()))
  {
  }

  /**
   * Any other port appends the App object's own `port` (line 625), not the publication's: a
   * publication on 8443 of an App with `port: 1` gives `...local:1`, and an App without a
   * `port` fails after the base URL has been set.
   */
  lemma UrlAppendsAppPort(obj: App, host: string, node: string)
    requires obj.SpecHas("url") && obj.spec.entries["url"] == Dict(map["publication" := Str("web")])
    ensures var pub := map["name" := Str("web"), "protocol" := Str("https"), "host" := Str(host), "port" := Int(8443)];
            var base := "https://" + host + "." + node + ".local";
            (obj.others == map["port" := Int(1)] ==> UrlFrom(obj, pub, node) == (Some(base + ":1"), Success(()))) &&
            ("port" !in obj.others ==> UrlFrom(obj, pub, node) == (Some(base), Failure(MissingKey("port"))))
  {
    var pub := map["name" := Str("web"), "protocol" := Str("https"), "host" := Str(host), "port" := Int(8443)];
    var base := "https://" + host + "." + node + ".local";
    assert NeedsPort(pub) == Success(true);
    assert Format(pub["protocol"]) + "://" + Format(pub["host"]) + "." + node + ".local" == base;
    if obj.others == map["port" := Int(1)] {
      assert obj.Other("port") == Success(Int(1));
      assert Format(Int(1)) == "1" by {
        assert IntToString(1) == "1";
      }
      assert !Has(obj.spec.entries["url"], "path");
      assert base + ":" + "1" == base + ":1";
    }
  }

  /** A publication whose name `spec.url` does not ask for leaves the URL alone. */
  lemma UrlSkipsOthers(obj: App, pub: Publication, node: string)
    requires obj.SpecHas("url") && Has(obj.spec.entries["url"], "publication") && "name" in pub
    requires obj.spec.entries["url"].entries["publication"] != pub["name"]
    ensures UrlFrom(obj, pub, node) == (None, Success(()))
  {
  }

  /** The loop touches only the URL. */
  lemma {:induction false} UrlAllFrame(obj: App, pubs: seq<Publication>, node: string)
    ensures UrlAll(obj, pubs, node).0 == obj.(url := UrlAll(obj, pubs, node).0.url)
    decreases |pubs|
  {
    if pubs != [] {
      var (written, r) := UrlFrom(obj, pubs[0], node);
      var next := if written.Some? then obj.(url := written) else obj;
      if r.Success? {
        UrlAllFrame(next, pubs[1..], node);
      }
    }
  }

  /** What one publication writes does not depend on the URL already set. */
  lemma UrlFromIgnoresUrl(obj: App, url: Option<string>, pub: Publication, node: string)
    ensures UrlFrom(obj.(url := url), pub, node) == UrlFrom(obj, pub, node)
  {
    assert obj.(url := url).spec == obj.spec && obj.(url := url).others == obj.others;
  }

  /**
   * A loop that raises nothing leaves the URL that the last publication writing one wrote,
   * or the App's own URL when none writes one.
   */
  lemma {:induction false} UrlAllLast(obj: App, pubs: seq<Publication>, node: string)
    requires UrlAll(obj, pubs, node).1.Success?
    ensures var url := UrlAll(obj, pubs, node).0.url;
            ((forall j :: 0 <= j < |pubs| ==> UrlFrom(obj, pubs[j], node).0.None?) && url == obj.url) ||
            (exists k :: 0 <= k < |pubs| && url.Some? && UrlFrom(obj, pubs[k], node).0 == url &&
                         forall j :: k < j < |pubs| ==> UrlFrom(obj, pubs[j], node).0.None?)
    decreases |pubs|
  {
    if pubs != [] {
      var (written, r) := UrlFrom(obj, pubs[0], node);
      var next := if written.Some? then obj.(url := written) else obj;
      var tail := pubs[1..];
      UrlAllLast(next, tail, node);
      forall j | 0 <= j < |tail|
        ensures UrlFrom(next, tail[j], node) == UrlFrom(obj, pubs[j + 1], node)
      {
        UrlFromIgnoresUrl(obj, next.url, tail[j], node);
        assert next == obj.(url := next.url);
      }
      var url := UrlAll(obj, pubs, node).0.url;
      assert url == UrlAll(next, tail, node).0.url;
      if forall j :: 0 <= j < |tail| ==> UrlFrom(next, tail[j], node).0.None? {
        if written.None? {
          forall j | 0 <= j < |pubs|
            ensures UrlFrom(obj, pubs[j], node).0.None?
          {
            if j > 0 {
              assert UrlFrom(next, tail[j - 1], node).0.None?;
            }
          }
        } else {
          assert UrlFrom(obj, pubs[0], node).0 == url;
        }
      } else {
        var k :| 0 <= k < |tail| && url.Some? && UrlFrom(next, tail[k], node).0 == url &&
                 forall j :: k < j < |tail| ==> UrlFrom(next, tail[j], node).0.None?;
        assert UrlFrom(obj, pubs[k + 1], node).0 == url;
        forall j | k + 1 < j < |pubs|
          ensures UrlFrom(obj, pubs[j], node).0.None?
        {
          assert UrlFrom(next, tail[j - 1], node).0.None?;
        }
      }
    }
  }

  // ---------------------------------------------------------------------------
  // project (lines 532-567)

  /**
   * The publications loop of lines 549-567 up to the match: `publication["name"]` is read
   * before `project["publication"]`; the first publication with the asked-for name is used.
   */
  function FirstPublication(pubs: seq<Publication>, project: Value): (r: Result<Option<Publication>, Err>)
    ensures r.Success? && r.value.Some? ==> Has(project, "publication") && "name" in r.value.value &&
                                            r.value.value["name"] == project.entries["publication"] &&
                                            r.value.value in pubs
    ensures r.Success? && r.value.None? ==>
            forall k :: 0 <= k < |pubs| ==> "name" in pubs[k] && Has(project, "publication") &&
                                             pubs[k]["name"] != project.entries["publication"]
    decreases |pubs|
  {
    if pubs == [] then Success(None)
    else if "name" !in pubs[0] then Failure(MissingKey("name"))
    else
      var want :- Get(project, "publication");
      if pubs[0]["name"] == want then Success(Some(pubs[0]))
      else
        var r := FirstPublication(pubs[1..], project);
        assert forall k :: 1 <= k < |pubs| ==> pubs[k] == pubs[1..][k - 1];
        r
  }

  /** The App a subscription names, looked up afresh (line 547). */
  function AppNamed(apps: seq<App>, name: string): (r: Result<App, Err>)
    ensures r.Success? ==> r.value in apps && r.value.name == name
    ensures r.Failure? ==> forall i :: 0 <= i < |apps| ==> apps[i].name != name
  {
    match IndexOfName(apps, name)
    case None => Failure(NotFound("App", "", name))
    case Some(i) => Success(apps[i])
  }

  /** The ConfigMap key the publication is written under: `project["key"]`, or `<subscription name>.<encoding>`. */
  function DataKey(sub: Subscription, project: map<string, Value>): Value {
    var encoding := if "encoding" in project then project["encoding"] else Str("yaml");
    if "key" in project then project["key"] else Str(Format(sub.name) + "." + Format(encoding))
  }

  /**
   * The name a `data[key]` entry is stored under once `replace()` (line 565) sends the
   * ConfigMap as JSON: a string as itself, an integer in decimal, a boolean as `true` or
   * `false`, None as `null`. A list or a mapping is no dictionary key: the assignment
   * raises TypeError. A dumped YAML text, whose characters the model does not hold, is
   * refused as well.
   */
  function JsonKey(key: Value): (r: Result<string, Err>)
    ensures r.Success? <==> !key.List? && !key.Dict? && !key.YamlText?
    ensures key.Str? ==> r == Success(key.s)
    ensures key.Int? ==> r.Success? && ParseInt(r.value) == Some(key.i)
    ensures key.Bool? ==> r == Success(if key.b then "true" else "false")
    ensures key.Null? ==> r == Success("null")
  {
    match key
    case Str(s) => Success(s)
    case Int(i) => ParseIntRoundTrip(i); Success(IntToString(i))
    case Bool(b) => Success(if b then "true" else "false")
    case Null => Success("null")
    case _ => Failure(WrongType("key"))
  }

  /** Keys that are not strings keep apart: two such keys written under one name are equal. */
  lemma JsonKeysDiffer(a: Value, b: Value)
    requires !a.Str? && !b.Str? && JsonKey(a).Success? && JsonKey(a) == JsonKey(b)
    ensures a == b
  {
    var t := JsonKey(a).value;
    if a.Int? || b.Int? {
      assert IsDigit(t[0]) || t[0] == '-';
      assert a.Int? && b.Int?;
      assert Some(a.i) == ParseInt(t) == Some(b.i);
    }
  }

  /** An integer key of 8080 is written as "8080". */
  lemma IntKeyExample()
    ensures JsonKey(Int(8080)) == Success("8080")
  {
    assert IntToString(8080) == "8080";
  }

  /** The ConfigMap entry as written: `data[key]` set to the dumped publication, a missing `data` created. */
  function WithEntry(config: map<string, Value>, key: string, pub: Publication): (r: Value)
    requires "data" in config ==> config["data"].Dict?
    ensures r.Dict? && r.entries.Keys == config.Keys + {"data"} && r.entries["data"].Dict?
    ensures forall k :: k in config && k != "data" ==> r.entries[k] == config[k]
    ensures var data := r.entries["data"].entries;
            key in data && data[key] == YamlText(Dict(pub)) &&
            ("data" in config ==> data.Keys == config["data"].entries.Keys + {key} &&
                                  forall k :: k in config["data"].entries && k != key ==> data[k] == config["data"].entries[k])
  {
    var data := if "data" in config then config["data"].entries else map[];
    Dict(config["data" := Dict(data[key := YamlText(Dict(pub))])])
  }

  /** One subscription's projection (lines 537-567): the store after it, or why it raised. */
  function ProjectOne(objects: Objects, apps: seq<App>, sub: Subscription): (r: Result<Objects, Err>) {
    var app :- AppNamed(apps, sub.app);
    if app.publications.None? then Failure(MissingKey("publications"))
    else
      var found :- FirstPublication(app.publications.value, sub.project);
      Projection(objects, sub, found)
  }

  /** Lines 553-565 once the publication is known: the project's ConfigMap gets the dumped publication. */
  function Projection(objects: Objects, sub: Subscription, found: Option<Publication>): (r: Result<Objects, Err>)
    requires found.Some? ==> sub.project.Dict?
  {
    if found.None? then Success(objects)
    else
      var project := sub.project.entries;
      var encoding := if "encoding" in project then project["encoding"] else Str("yaml");
      var key := DataKey(sub, project);
      var namespace :- GetStr(sub.project, "namespace");
      var name :- GetStr(sub.project, "name");
      var configKey := Key("ConfigMap", namespace, name);
      if configKey !in objects then Failure(NotFound("ConfigMap", namespace, name))
      else
        var config := objects[configKey];
        if !config.Dict? then Failure(WrongType("ConfigMap"))
        else if "data" in config.entries && !config.entries["data"].Dict? then Failure(WrongType("data"))
        else if encoding == Str("json") then Failure(UndefinedJson)
        else
          var name :- JsonKey(key);
          Success(objects[configKey := WithEntry(config.entries, name, found.value)])
  }

  /** The subscriptions loop from the front; what was projected before a failure stays. */
  function ProjectAll(objects: Objects, apps: seq<App>, subs: seq<Subscription>): (Objects, Result<(), Err>)
    decreases |subs|
  {
    if subs == [] then (objects, Success(()))
    else match ProjectOne(objects, apps, subs[0])
      case Failure(e) => (objects, Failure(e))
      case Success(next) => ProjectAll(next, apps, subs[1..])
  }

  /**
   * A projection writes one ConfigMap and nothing else: the one the project names, where
   * the matching publication is stored, dumped as YAML, under the project's key.
   */
  lemma ProjectWrites(objects: Objects, apps: seq<App>, sub: Subscription)
    requires ProjectOne(objects, apps, sub).Success?
    ensures var after := ProjectOne(objects, apps, sub).value;
            after == objects ||
            (Has(sub.project, "namespace") && Has(sub.project, "name") &&
             sub.project.entries["namespace"].Str? && sub.project.entries["name"].Str? &&
             var configKey := Key("ConfigMap", sub.project.entries["namespace"].s, sub.project.entries["name"].s);
             configKey in objects && after == objects[configKey := after[configKey]] &&
             exists pub :: pub in AppNamed(apps, sub.app).value.publications.value &&
                           "name" in pub && pub["name"] == sub.project.entries["publication"] &&
                           JsonKey(DataKey(sub, sub.project.entries)).Success? &&
                           after[configKey].entries["data"].entries[JsonKey(DataKey(sub, sub.project.entries)).value] == YamlText(Dict(pub)))
  {
    var app := AppNamed(apps, sub.app).value;
    var found := FirstPublication(app.publications.value, sub.project).value;
    if found.Some? {
      var pub := found.value;
      assert pub in app.publications.value;
    }
  }

  /** Projecting only rewrites ConfigMaps that exist: the store keeps its keys. */
  lemma {:induction false} ProjectAllKeys(objects: Objects, apps: seq<App>, subs: seq<Subscription>)
    ensures ProjectAll(objects, apps, subs).0.Keys == objects.Keys
    decreases |subs|
  {
    if subs != [] {
      var next := ProjectOne(objects, apps, subs[0]);
      if next.Success? {
        ProjectWrites(objects, apps, subs[0]);
        ProjectAllKeys(next.value, apps, subs[1..]);
      }
    }
  }

  /** The json encoding raises, since `json` is never imported; the ConfigMap is not written. */
  lemma ProjectJsonFails(objects: Objects, apps: seq<App>, sub: Subscription)
    requires AppNamed(apps, sub.app).Success? && AppNamed(apps, sub.app).value.publications.Some?
    requires var found := FirstPublication(AppNamed(apps, sub.app).value.publications.value, sub.project);
             found.Success? && found.value.Some?
    requires Has(sub.project, "encoding") && sub.project.entries["encoding"] == Str("json")
    ensures ProjectOne(objects, apps, sub).Failure?
    ensures ProjectOne(objects, apps, sub).error in {UndefinedJson, WrongType("ConfigMap"), WrongType("data")} ||
            ProjectOne(objects, apps, sub).error.NotFound? || ProjectOne(objects, apps, sub).error.MissingKey? ||
            ProjectOne(objects, apps, sub).error.WrongType?
  {
  }
}
