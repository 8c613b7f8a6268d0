/**
 * The App object the controller reconciles (lib/config.py:428-689): its lifecycle fields,
 * the check a downloaded App descriptor must pass before an App is created from it, and
 * the `kind/namespace/name` label of an object (`display`, lines 417-426), which is also
 * the identity under which the cluster stores it.
 */
module Apps {
  import opened Wrappers
  import opened Strings
  import opened Documents

  /** `obj["status"]`; a value the controller does not know is kept as it is. */
  datatype Status = Discovered | Downloaded | Installed | Error | OtherStatus(value: Value)

  /** `obj["action"]`; a value the controller does not know is kept as it is. */
  datatype Action = Download | Install | Uninstall | OtherAction(value: Value)

  /** One entry of `obj["subscriptions"]` (lines 518-522). */
  datatype Subscription = Subscription(name: Value, app: string, project: Value)

  /** One entry of `obj["publications"]`. */
  type Publication = map<string, Value>

  /**
   * An App object. `spec` is the user's document as written; the lifecycle fields the
   * controller reads and writes are typed, `None` standing for a key the object lacks;
   * `others` holds every other top-level key (`apiVersion`, `kind`, `metadata`, ...).
   */
  datatype App = App(
    name: string,
    spec: Value,
    status: Option<Status>,
    action: Option<Action>,
    resources: Option<seq<Value>>,
    subscriptions: Option<seq<Subscription>>,
    publications: Option<seq<Publication>>,
    url: Option<string>,
    error: Option<Err>,
    others: map<string, Value>)
  {
    /** `field in obj["spec"]`. */
    predicate SpecHas(field: string) {
      Has(spec, field)
    }

    /** `obj["spec"][field]`. */
    function SpecGet(field: string): (r: Result<Value, Err>)
      ensures r.Success? <==> SpecHas(field)
      ensures r.Success? ==> r.value == spec.entries[field]
    {
      Get(spec, field)
    }

    /** `obj[key]` for a key the controller does not manage (the `port` and `path` of lines 625 and 628). */
    function Other(key: string): (r: Result<Value, Err>)
      ensures r.Success? <==> key in others
      ensures r.Success? ==> r.value == others[key]
    {
      if key in others then Success(others[key]) else Failure(MissingKey(key))
    }
  }

  /** The position of the App called `name`. */
  function IndexOfName(apps: seq<App>, name: string): (r: Option<nat>)
    ensures r.Some? ==> r.value < |apps| && apps[r.value].name == name
    ensures r.None? ==> forall i :: 0 <= i < |apps| ==> apps[i].name != name
  {
    if apps == [] then None
    else if apps[0].name == name then Some(0)
    else match IndexOfName(apps[1..], name)
      case None =>
        assert forall i :: 1 <= i < |apps| ==> apps[i] == apps[1..][i - 1];
        None
      case Some(i) => Some(i + 1)
  }

  // ---------------------------------------------------------------------------
  // the App descriptor (lines 472-484)

  const API_VERSION := "klot.io/v1"
  const APP_KIND := "App"
  const DESCRIPTOR_KEYS: set<string> := {"apiVersion", "kind", "metadata", "spec"}

  /** `yaml.safe_load` of a fetched body: nothing loads as None, several documents are refused. */
  function LoadOne(documents: seq<Value>): (r: Result<Value, Err>)
    ensures r.Success? <==> |documents| <= 1
    ensures |documents| == 1 ==> r == Success(documents[0])
    ensures documents == [] ==> r == Success(Null)
  {
    if documents == [] then Success(Null)
    else if |documents| == 1 then Success(documents[0])
    else Failure(NotOneDocument)
  }

  /** What an App descriptor must be: exactly the four keys, with this API version and kind. */
  predicate WellShaped(doc: Value) {
    doc.Dict? && doc.entries.Keys == DESCRIPTOR_KEYS &&
    doc.entries["apiVersion"] == Str(API_VERSION) && doc.entries["kind"] == Str(APP_KIND)
  }

  /**
   * The test of lines 474-478. It reads `apiVersion` and `kind` before it checks that they
   * exist, so a mapping without them fails with a KeyError rather than as a malformed App.
   */
  function CheckDescriptor(doc: Value): (r: Result<(), Err>)
    ensures r.Success? <==> WellShaped(doc)
    ensures r.Failure? && doc.Dict? && "apiVersion" in doc.entries && "kind" in doc.entries ==> r.error == MalformedApp
    ensures !doc.Dict? ==> r == Failure(MalformedApp)
    ensures doc.Dict? && "apiVersion" !in doc.entries ==> r == Failure(MissingKey("apiVersion"))
  {
    if !doc.Dict? then Failure(MalformedApp)
    else
      var apiVersion :- Get(doc, "apiVersion");
      if apiVersion != Str(API_VERSION) then Failure(MalformedApp)
      else
        var kind :- Get(doc, "kind");
        if kind != Str(APP_KIND) then Failure(MalformedApp)
        else if "metadata" !in doc.entries || "spec" !in doc.entries || |doc.entries.Keys| != 4 then Failure(MalformedApp)
        else
          assert doc.entries.Keys == DESCRIPTOR_KEYS by {
            FourKeys(doc.entries.Keys);
          }
          Success(())
  }

  /** Four named keys in a set of four keys are all of it. */
  lemma FourKeys(keys: set<string>)
    requires DESCRIPTOR_KEYS <= keys && |keys| == 4
    ensures keys == DESCRIPTOR_KEYS
  {
    assert |DESCRIPTOR_KEYS| == 4;
    if keys != DESCRIPTOR_KEYS {
      assert keys - DESCRIPTOR_KEYS != {};
      var extra :| extra in keys - DESCRIPTOR_KEYS;
      assert DESCRIPTOR_KEYS + {extra} <= keys;
      assert |DESCRIPTOR_KEYS + {extra}| == 5;
      SubsetSize(DESCRIPTOR_KEYS + {extra}, keys);
    }
  }

  lemma SubsetSize(a: set<string>, b: set<string>)
    requires a <= b
    ensures |a| <= |b|
  {
    assert b == a + (b - a);
  }

  /**
   * The App that line 482 creates from a well-shaped descriptor, stamped with `action` and
   * status Discovered (lines 480-481); the API refuses one whose metadata has no string name.
   */
  function NewApp(doc: Value, action: Action): (r: Result<App, Err>)
    requires WellShaped(doc)
    ensures r.Success? ==> r.value.status == Some(Discovered) && r.value.action == Some(action)
    ensures r.Success? ==> r.value.spec == doc.entries["spec"] && Has(doc.entries["metadata"], "name") &&
                           doc.entries["metadata"].entries["name"] == Str(r.value.name)
    ensures r.Success? ==> r.value.resources.None? && r.value.subscriptions.None? && r.value.publications.None? &&
                           r.value.url.None? && r.value.error.None?
    ensures r.Success? <==> Has(doc.entries["metadata"], "name") && doc.entries["metadata"].entries["name"].Str?
  {
    var metadata := doc.entries["metadata"];
    var name :- GetStr(metadata, "name");
    Success(App(name, doc.entries["spec"], Some(Discovered), Some(action), None, None, None, None, None,
                map["apiVersion" := doc.entries["apiVersion"], "kind" := doc.entries["kind"], "metadata" := metadata]))
  }

  // ---------------------------------------------------------------------------
  // object identity and display (lines 417-426)

  /** Where the cluster keeps an object. A namespace the object does not name is the empty string. */
  datatype Key = Key(kind: string, namespace: string, name: string)

  /**
   * The parts `display` joins, read in its order: `kind`, the namespace when the metadata has
   * a truthy one, `name`. `"/".join` needs them to be strings.
   */
  function Label(obj: Value): (r: Result<Key, Err>)
    ensures r.Success? ==> Has(obj, "kind") && obj.entries["kind"] == Str(r.value.kind)
    ensures r.Success? ==> Has(obj, "metadata") && Has(obj.entries["metadata"], "name") &&
                           obj.entries["metadata"].entries["name"] == Str(r.value.name)
    ensures r.Success? ==> (r.value.namespace != [] <==>
                            Has(obj.entries["metadata"], "namespace") && Truthy(obj.entries["metadata"].entries["namespace"]))
    ensures r.Success? && r.value.namespace != [] ==> obj.entries["metadata"].entries["namespace"] == Str(r.value.namespace)
    ensures !Has(obj, "kind") || !Has(obj, "metadata") ==> r.Failure?
  {
    var kind :- GetStr(obj, "kind");
    var metadata :- Get(obj, "metadata");
    var namespace :- if Has(metadata, "namespace") && Truthy(metadata.entries["namespace"])
                     then GetStr(metadata, "namespace")
                     else Success("");
    var name :- GetStr(metadata, "name");
    Success(Key(kind, namespace, name))
  }

  function Parts(key: Key): seq<string> {
    [key.kind] + (if key.namespace != [] then [key.namespace] else []) + [key.name]
  }

  /** `display(obj)`: the label's parts joined by `/`. */
  function Display(obj: Value): (r: Result<string, Err>)
    ensures r.Success? <==> Label(obj).Success?
  {
    var key :- Label(obj);
    Success(Join(Parts(key), '/'))
  }

  /** The label can be read back from the display string when no part holds a `/`. */
  lemma DisplayRoundTrip(obj: Value)
    requires Label(obj).Success?
    requires var key := Label(obj).value; '/' !in key.kind && '/' !in key.namespace && '/' !in key.name
    ensures Split(Display(obj).value, '/') == Parts(Label(obj).value)
  {
    var key := Label(obj).value;
    var parts := Parts(key);
    assert forall k :: 0 <= k < |parts| ==> '/' !in parts[k];
    SplitJoin(parts, '/');
  }

  /** `Namespace/kube-system`-style labels: a namespaced object shows three parts, a cluster-wide one two. */
  lemma DisplayExample()
    ensures Display(Dict(map["kind" := Str("Service"),
                             "metadata" := Dict(map["namespace" := Str("ns"), "name" := Str("web")])])) == Success("Service/ns/web")
    ensures Display(Dict(map["kind" := Str("Namespace"),
                             "metadata" := Dict(map["namespace" := Null, "name" := Str("ns")])])) == Success("Namespace/ns")
  {
    var service := Dict(map["kind" := Str("Service"),
                            "metadata" := Dict(map["namespace" := Str("ns"), "name" := Str("web")])]);
    assert Label(service) == Success(Key("Service", "ns", "web"));
    assert Join(["Service", "ns", "web"], '/') == "Service/ns/web" by {
      assert Join(["web"], '/') == "web";
      assert Join(["ns", "web"], '/') == "ns" + "/" + "web";
    }
    var namespace := Dict(map["kind" := Str("Namespace"),
                              "metadata" := Dict(map["namespace" := Null, "name" := Str("ns")])]);
    assert Label(namespace) == Success(Key("Namespace", "", "ns"));
    assert Join(["Namespace", "ns"], '/') == "Namespace/ns" by {
      assert Join(["ns"], '/') == "ns";
    }
  }
}
