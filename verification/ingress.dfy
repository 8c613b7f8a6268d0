/**
 * The ingress publisher `services()` (lib/config.py:725-793): every LoadBalancer Service
 * with named http or https ports is proxied by exactly one node, the one whose name sorts
 * first among the nodes running its pods. That node announces the Service's host name over
 * mDNS and keeps an nginx file for it (`nginx()`, lines 691-723).
 */
module Ingress {
  import opened Wrappers
  import opened Strings
  import opened Documents
  import opened Proxy

  // ---------------------------------------------------------------------------
  // ports (lines 739-757)

  /** The server of a port whose name was classified as `protocol`. */
  function Served(port: Value, protocol: string): (r: Result<Option<Server>, Err>)
    ensures r.Success? <==> Has(port, "port") && Has(port, "targetPort")
    ensures r.Success? ==> r.value == Some(Server(protocol, port.entries["port"], port.entries["targetPort"]))
  {
    var external :- Get(port, "port");
    var internal :- Get(port, "targetPort");
    Success(Some(Server(protocol, external, internal)))
  }

  /** One port: skipped without a name; https when the lower-cased name starts so, else http when it starts so. */
  function PortServer(port: Value): (r: Result<Option<Server>, Err>)
    ensures r.Success? && r.value.Some? ==> r.value.value.protocol == "http" || r.value.value.protocol == "https"
  {
    if !Has(port, "name") then Success(None)
    else
      var name := port.entries["name"];
      if !name.Str? then Failure(WrongType("name"))
      else if StartsWith(Lower(name.s), "https") then Served(port, "https")
      else if StartsWith(Lower(name.s), "http") then Served(port, "http")
      else Success(None)
  }

  /** The servers of the ports, in port order; the first port that raises ends it. */
  function PortServers(ports: seq<Value>): (r: Result<seq<Server>, Err>)
    ensures r.Success? ==> |r.value| <= |ports|
    ensures r.Success? ==> forall i :: 0 <= i < |r.value| ==> r.value[i].protocol == "http" || r.value[i].protocol == "https"
  {
    if ports == [] then Success([])
    else
      var first :- PortServer(ports[0]);
      var rest :- PortServers(ports[1..]);
      match first
      case Some(server) => Success([server] + rest)
      case None => Success(rest)
  }

  /** The port loop of `services()`. */
  method ServersOf(ports: seq<Value>) returns (r: Result<seq<Server>, Err>)
    ensures r == PortServers(ports)
  {
    var servers: seq<Server> := [];
    var rest := ports;
    while rest != []
      invariant PortServers(ports).Success? ==> PortServers(rest).Success? && PortServers(ports).value == servers + PortServers(rest).value
      invariant PortServers(ports).Failure? ==> PortServers(rest) == PortServers(ports)
      invariant PortServers(rest).Failure? ==> PortServers(ports) == PortServers(rest)
    {
      var first := PortServer(rest[0]);
      if first.Failure? {
        return Failure(first.error);
      }
      if first.value.Some? {
        servers := servers + [first.value.value];
      }
      rest := rest[1..];
    }
    assert servers + [] == servers;
    return Success(servers);
  }

  /** A name starting with "https" also starts with "http": testing https first is what makes it https. */
  lemma HttpsFirst(port: Value)
    requires Has(port, "name") && port.entries["name"].Str? && Has(port, "port") && Has(port, "targetPort")
    requires StartsWith(Lower(port.entries["name"].s), "https")
    ensures StartsWith(Lower(port.entries["name"].s), "http")
    ensures PortServer(port) == Success(Some(Server("https", port.entries["port"], port.entries["targetPort"])))
  {
    assert "https"[..4] == "http";
  }

  /** Ports whose names do not start with http, in any case, give no server. */
  lemma {:induction false} NoHttpPorts(ports: seq<Value>)
    requires forall i :: 0 <= i < |ports| && Has(ports[i], "name") ==>
               ports[i].entries["name"].Str? && !StartsWith(Lower(ports[i].entries["name"].s), "http")
    ensures PortServers(ports) == Success([])
    decreases |ports|
  {
    if ports != [] {
      assert forall i :: 0 <= i < |ports[1..]| ==> ports[1..][i] == ports[i + 1];
      NoHttpPorts(ports[1..]);
    }
  }

  // ---------------------------------------------------------------------------
  // the node election (lines 759-770)

  /** `node_ips`: each node that runs a pod with an ip, with the ip of the last such pod listed. */
  function NodeIps(pods: seq<Value>, acc: map<string, Value>): (r: Result<map<string, Value>, Err>)
    ensures r.Success? ==> acc.Keys <= r.value.Keys
    decreases |pods|
  {
    if pods == [] then Success(acc)
    else
      var spec :- Get(pods[0], "spec");
      if !Has(spec, "nodeName") then NodeIps(pods[1..], acc)
      else
        var status :- Get(pods[0], "status");
        if !Has(status, "podIP") then NodeIps(pods[1..], acc)
        else
          var node := spec.entries["nodeName"];
          if !node.Str? then Failure(WrongType("nodeName"))
          else NodeIps(pods[1..], acc[node.s := status.entries["podIP"]])
  }

  /** A pod that has both a node and an ip. */
  predicate Placed(pod: Value) {
    Has(pod, "spec") && Has(pod.entries["spec"], "nodeName") &&
    Has(pod, "status") && Has(pod.entries["status"], "podIP")
  }

  /** The pod loop of `services()`. */
  method NodeIpsOf(pods: seq<Value>) returns (r: Result<map<string, Value>, Err>)
    ensures r == NodeIps(pods, map[])
  {
    var ips: map<string, Value> := map[];
    var rest := pods;
    while rest != []
      invariant NodeIps(pods, map[]) == NodeIps(rest, ips)
    {
      var spec := Get(rest[0], "spec");
      if spec.Failure? {
        return Failure(spec.error);
      }
      if Has(spec.value, "nodeName") {
        var status := Get(rest[0], "status");
        if status.Failure? {
          return Failure(status.error);
        }
        if Has(status.value, "podIP") {
          var node := spec.value.entries["nodeName"];
          if !node.Str? {
            return Failure(WrongType("nodeName"));
          }
          ips := ips[node.s := status.value.entries["podIP"]];
        }
      }
      rest := rest[1..];
    }
    return Success(ips);
  }

  /** The nodes known are exactly those of the pods that have a node and an ip. */
  lemma {:induction false} NodeIpsNodes(pods: seq<Value>, acc: map<string, Value>)
    requires NodeIps(pods, acc).Success?
    ensures forall n :: n in NodeIps(pods, acc).value <==>
              n in acc || exists i :: 0 <= i < |pods| && Placed(pods[i]) && pods[i].entries["spec"].entries["nodeName"] == Str(n)
    decreases |pods|
  {
    if pods != [] {
      var rest := pods[1..];
      assert forall i :: 0 <= i < |rest| ==> rest[i] == pods[i + 1];
      if Placed(pods[0]) {
        var node := pods[0].entries["spec"].entries["nodeName"];
        NodeIpsNodes(rest, acc[node.s := pods[0].entries["status"].entries["podIP"]]);
      } else {
        NodeIpsNodes(rest, acc);
      }
      forall n | exists i :: 0 <= i < |pods| && Placed(pods[i]) && pods[i].entries["spec"].entries["nodeName"] == Str(n)
        ensures n in NodeIps(pods, acc).value
      {
        var i :| 0 <= i < |pods| && Placed(pods[i]) && pods[i].entries["spec"].entries["nodeName"] == Str(n);
        if i > 0 {
          assert rest[i - 1] == pods[i];
        }
      }
    }
  }

  /** `node_ips and sorted(node_ips.keys())[0] == node`: `node` is a key and no key sorts before it. */
  predicate Elected(nodes: set<string>, node: string) {
    node in nodes && forall n :: n in nodes ==> !Below(n, node)
  }

  /** At most one node is elected. */
  lemma ElectedUnique(nodes: set<string>, a: string, b: string)
    requires Elected(nodes, a) && Elected(nodes, b)
    ensures a == b
  {
    if a != b {
      BelowTotal(a, b);
    }
  }

  /** Some node is elected as soon as one is known. */
  lemma {:induction false} ElectedExists(nodes: set<string>)
    requires nodes != {}
    ensures exists n :: Elected(nodes, n)
    decreases |nodes|
  {
    var x :| x in nodes;
    if nodes == {x} {
      BelowIrreflexive(x);
      assert Elected(nodes, x);
    } else {
      var others := nodes - {x};
      ElectedExists(others);
      var m :| Elected(others, m);
      if Below(x, m) {
        forall n | n in nodes
          ensures !Below(n, x)
        {
          if n == x {
            BelowIrreflexive(x);
          } else if Below(n, x) {
            BelowTransitive(n, x, m);
          }
        }
        assert Elected(nodes, x);
      } else {
        assert Elected(nodes, m);
      }
    }
  }

  // ---------------------------------------------------------------------------
  // one Service (lines 729-787)

  /** `service["spec"]["type"] == "LoadBalancer"` with ports, a selector and a namespace. */
  predicate Eligible(service: Value) {
    Has(service, "spec") && Has(service.entries["spec"], "type") &&
    service.entries["spec"].entries["type"] == Str("LoadBalancer") &&
    Has(service.entries["spec"], "ports") && Has(service.entries["spec"], "selector") &&
    Has(service, "metadata") && Has(service.entries["metadata"], "namespace")
  }

  /** `"%s.%s.%s-klot-io.local" % (name, namespace, cluster)`. */
  function HostName(name: Value, namespace: Value, cluster: Value): string {
    Format(name) + "." + Format(namespace) + "." + Format(cluster) + "-klot-io.local"
  }

  /**
   * What this node publishes for one Service: nothing when it is skipped, else its host and
   * proxy. `kubernetes` is `self.config["kubernetes"]`; `pods` lists the pods of a namespace
   * that match a selector.
   */
  function Offered(service: Value, node: string, kubernetes: Value, pods: (Value, Value) -> seq<Value>): (r: Result<Option<(string, Proxy)>, Err>)
    ensures r.Success? && r.value.Some? ==> Eligible(service)
  {
    var spec :- Get(service, "spec");
    if !Has(spec, "type") || spec.entries["type"] != Str("LoadBalancer") || !Has(spec, "ports") || !Has(spec, "selector") then
      Success(None)
    else
      var metadata :- Get(service, "metadata");
      if !Has(metadata, "namespace") then Success(None)
      else
        var ports := spec.entries["ports"];
        if !ports.List? then Failure(WrongType("ports"))
        else
          var servers :- PortServers(ports.items);
          if servers == [] then Success(None)
          else
            var namespace := metadata.entries["namespace"];
            var ips :- NodeIps(pods(namespace, spec.entries["selector"]), map[]);
            if !Elected(ips.Keys, node) then Success(None)
            else
              var name :- Get(metadata, "name");
              var cluster :- Get(kubernetes, "cluster");
              Success(Some((HostName(name, namespace, cluster), Proxy(ips[node], servers))))
  }

  /** A Service that is not an eligible LoadBalancer is skipped (it still needs a spec, and a metadata when its spec qualifies). */
  lemma IneligibleSkipped(service: Value, node: string, kubernetes: Value, pods: (Value, Value) -> seq<Value>)
    requires Has(service, "spec") && Has(service, "metadata") && !Eligible(service)
    ensures Offered(service, node, kubernetes, pods) == Success(None)
  {
  }

  /**
   * What an offer is made of: the Service is eligible, its ports give the servers (at least
   * one), this node is elected among the nodes of its pods and proxies to its pod's ip, and
   * the host is `<name>.<namespace>.<cluster>-klot-io.local`.
   */
  lemma OfferedParts(service: Value, node: string, kubernetes: Value, pods: (Value, Value) -> seq<Value>)
    requires Offered(service, node, kubernetes, pods).Success? && Offered(service, node, kubernetes, pods).value.Some?
    ensures var (host, proxy) := Offered(service, node, kubernetes, pods).value.value;
            var spec := service.entries["spec"];
            var metadata := service.entries["metadata"];
            var ips := NodeIps(pods(metadata.entries["namespace"], spec.entries["selector"]), map[]);
            Eligible(service) && spec.entries["ports"].List? &&
            PortServers(spec.entries["ports"].items) == Success(proxy.servers) && proxy.servers != [] &&
            ips.Success? && Elected(ips.value.Keys, node) && proxy.ip == ips.value[node] &&
            Has(metadata, "name") && Has(kubernetes, "cluster") &&
            host == HostName(metadata.entries["name"], metadata.entries["namespace"], kubernetes.entries["cluster"])
  {
  }

  /** No two nodes publish the same Service. */
  lemma OneNodePublishes(service: Value, kubernetes: Value, pods: (Value, Value) -> seq<Value>, a: string, b: string)
    requires Offered(service, a, kubernetes, pods).Success? && Offered(service, a, kubernetes, pods).value.Some?
    requires Offered(service, b, kubernetes, pods).Success? && Offered(service, b, kubernetes, pods).value.Some?
    ensures a == b
  {
    OfferedParts(service, a, kubernetes, pods);
    OfferedParts(service, b, kubernetes, pods);
    var spec := service.entries["spec"];
    var ips := NodeIps(pods(service.entries["metadata"].entries["namespace"], spec.entries["selector"]), map[]).value;
    ElectedUnique(ips.Keys, a, b);
  }

  /** What is offered is proxied over http or https, on at least one port. */
  lemma OfferedProtocols(service: Value, node: string, kubernetes: Value, pods: (Value, Value) -> seq<Value>)
    requires Offered(service, node, kubernetes, pods).Success? && Offered(service, node, kubernetes, pods).value.Some?
    ensures var proxy := Offered(service, node, kubernetes, pods).value.value.1;
            proxy.servers != [] &&
            forall i :: 0 <= i < |proxy.servers| ==> Field(proxy.servers[i].protocol) && ' ' !in proxy.servers[i].protocol
  {
    OfferedParts(service, node, kubernetes, pods);
    var proxy := Offered(service, node, kubernetes, pods).value.value.1;
    forall i | 0 <= i < |proxy.servers|
      ensures Field(proxy.servers[i].protocol) && ' ' !in proxy.servers[i].protocol
    {
      NotContainedShort("http", "listen");
      NotContainedShort("https", "listen");
    }
  }

  // ---------------------------------------------------------------------------
  // all Services (lines 727-793)

  /** The `nginx` dictionary built over the Services in order, from `acc`; the first that raises ends it. */
  function Wanted(services: seq<Value>, node: string, kubernetes: Value, pods: (Value, Value) -> seq<Value>, acc: map<string, Proxy>): (r: Result<map<string, Proxy>, Err>)
    ensures r.Success? ==> acc.Keys <= r.value.Keys
    decreases |services|
  {
    if services == [] then Success(acc)
    else
      var offered :- Offered(services[0], node, kubernetes, pods);
      match offered
      case None => Wanted(services[1..], node, kubernetes, pods, acc)
      case Some((host, proxy)) => Wanted(services[1..], node, kubernetes, pods, acc[host := proxy])
  }

  /** Every Service this node offers has its host proxied. */
  lemma {:induction false} WantedHasEvery(services: seq<Value>, node: string, kubernetes: Value, pods: (Value, Value) -> seq<Value>, acc: map<string, Proxy>, i: nat)
    requires Wanted(services, node, kubernetes, pods, acc).Success?
    requires i < |services| && Offered(services[i], node, kubernetes, pods).Success? && Offered(services[i], node, kubernetes, pods).value.Some?
    ensures Offered(services[i], node, kubernetes, pods).value.value.0 in Wanted(services, node, kubernetes, pods, acc).value
    decreases |services|
  {
    var rest := services[1..];
    var offered := Offered(services[0], node, kubernetes, pods).value;
    var next := if offered.Some? then acc[offered.value.0 := offered.value.1] else acc;
    assert Wanted(services, node, kubernetes, pods, acc) == Wanted(rest, node, kubernetes, pods, next);
    if i > 0 {
      assert rest[i - 1] == services[i];
      WantedHasEvery(rest, node, kubernetes, pods, next, i - 1);
    }
  }

  /** Every host proxied was offered, with that proxy, by some Service (or was in `acc`). */
  lemma {:induction false} WantedOnlyOffered(services: seq<Value>, node: string, kubernetes: Value, pods: (Value, Value) -> seq<Value>, acc: map<string, Proxy>, h: string)
    requires Wanted(services, node, kubernetes, pods, acc).Success? && h in Wanted(services, node, kubernetes, pods, acc).value
    ensures var p := Wanted(services, node, kubernetes, pods, acc).value[h];
            (h in acc && acc[h] == p) ||
            exists i :: 0 <= i < |services| && Offered(services[i], node, kubernetes, pods) == Success(Some((h, p)))
    decreases |services|
  {
    if services != [] {
      var rest := services[1..];
      var offered := Offered(services[0], node, kubernetes, pods).value;
      var next := if offered.Some? then acc[offered.value.0 := offered.value.1] else acc;
      assert Wanted(services, node, kubernetes, pods, acc) == Wanted(rest, node, kubernetes, pods, next);
      WantedOnlyOffered(rest, node, kubernetes, pods, next, h);
      var p := Wanted(services, node, kubernetes, pods, acc).value[h];
      if exists j :: 0 <= j < |rest| && Offered(rest[j], node, kubernetes, pods) == Success(Some((h, p))) {
        var j :| 0 <= j < |rest| && Offered(rest[j], node, kubernetes, pods) == Success(Some((h, p)));
        assert services[j + 1] == rest[j];
      } else if offered.Some? && offered.value.0 == h {
        assert Offered(services[0], node, kubernetes, pods) == Success(Some((h, p)));
      }
    }
  }

  /** The directory is in a state that `nginx(expected)` leaves as it is. */
  ghost predicate Stable(conf: Directory, expected: map<string, Proxy>) {
    AllParse(conf) && Unambiguous(conf) && Reads(conf, Seen(expected))
  }

  /** Files written from renderable proxies are stable. */
  lemma WrittenStable(conf: Directory, expected: map<string, Proxy>)
    requires forall h :: h in expected ==> Renderable(h, expected[h])
    ensures Stable(Written(conf, expected), expected)
  {
    WrittenReadsBack(conf, expected);
  }

  /**
   * A Service port whose `targetPort` is a name is wanted as a server with a named internal
   * port (`Served`). The file written for it does not read back, because `int()` refuses the
   * name, so from then on every `nginx` call fails and leaves the directory as it is.
   */
  lemma NamedTargetPortWedges(conf: Directory, expected: map<string, Proxy>, h: string)
    requires h in expected && RenderableHost(h) && expected[h].ip.Str? && Field(expected[h].ip.s)
    requires expected[h].servers != [] && expected[h].servers[0].external.Int?
    requires var s := expected[h].servers[0];
             Field(s.protocol) && ' ' !in s.protocol && s.internal.Str? &&
             Field(s.internal.s) && 'l' !in s.internal.s && ParseInt(s.internal.s).None?
    ensures !AllParse(Written(conf, expected))
  {
    var p := expected[h];
    var s := p.servers[0];
    assert [s] + p.servers[1..] == p.servers;
    assert p == Proxy(Str(p.ip.s), [Server(s.protocol, Int(s.external.i), Str(s.internal.s))] + p.servers[1..]);
    NamedPortFileUnreadable(h, p.ip.s, s.protocol, s.external.i, s.internal.s, p.servers[1..]);
    FileNameRead(h);
  }

  /** `Daemon`'s ingress state: the names announced, the proxy files, and what it invoked. */
  class Publisher {
    /** `self.cnames`: the host names last announced. */
    var cnames: set<string>
    /** `/etc/nginx/conf.d`. */
    var conf: Directory
    /** How often `avahi()` announced `cnames`. */
    var announcements: nat
    /** How often nginx was reloaded. */
    var reloads: nat
    /** `self.node`. */
    const node: string
    /** `self.config["kubernetes"]`. */
    const kubernetes: Value
    /** The pods of a namespace that match a selector. */
    const pods: (Value, Value) -> seq<Value>

    constructor (node: string, kubernetes: Value, pods: (Value, Value) -> seq<Value>, conf: Directory)
      ensures this.node == node && this.kubernetes == kubernetes && this.pods == pods && this.conf == conf
      ensures cnames == {} && announcements == 0 && reloads == 0
    {
      this.node := node;
      this.kubernetes := kubernetes;
      this.pods := pods;
      this.conf := conf;
      cnames := {};
      announcements := 0;
      reloads := 0;
    }

    /** One Service, as the body of the Service loop computes it. */
    method Offer(service: Value) returns (r: Result<Option<(string, Proxy)>, Err>)
      ensures r == Offered(service, node, kubernetes, pods)
    {
      var spec :- Get(service, "spec");
      if !Has(spec, "type") || spec.entries["type"] != Str("LoadBalancer") || !Has(spec, "ports") || !Has(spec, "selector") {
        return Success(None);
      }
      var metadata :- Get(service, "metadata");
      if !Has(metadata, "namespace") {
        return Success(None);
      }
      var ports := spec.entries["ports"];
      if !ports.List? {
        return Failure(WrongType("ports"));
      }
      var servers :- ServersOf(ports.items);
      if servers == [] {
        return Success(None);
      }
      var namespace := metadata.entries["namespace"];
      var ips :- NodeIpsOf(pods(namespace, spec.entries["selector"]));
      if !Elected(ips.Keys, node) {
        return Success(None);
      }
      var name :- Get(metadata, "name");
      var cluster :- Get(kubernetes, "cluster");
      return Success(Some((HostName(name, namespace, cluster), Proxy(ips[node], servers))));
    }

    /** The read of `nginx()`: every `.conf` file, in no particular order. */
    method ReadConf() returns (r: Result<map<string, Site>, Err>)
      ensures r.Success? <==> AllParse(conf)
      ensures r.Success? ==> Reads(conf, r.value)
    {
      var left := set name | name in conf && Globbed(name);
      var actual: map<string, Site> := map[];
      while left != {}
        invariant ReadSoFar(conf, left, actual)
        decreases left
      {
        var name :| name in left;
        var site := ReadFile(conf[name]);
        if site.Failure? {
          return Failure(site.error);
        }
        ReadOneMore(conf, left, actual, name, site.value);
        actual := actual[HostOf(name) := site.value];
        left := left - {name};
      }
      ReadAll(conf, actual);
      return Success(actual);
    }

    /**
     * `nginx(expected)` (lines 691-723): the files are read back and, when what they hold
     * differs from `expected`, every `.conf` file is replaced by one per host and nginx is
     * reloaded.
     */
    method Nginx(expected: map<string, Proxy>) returns (r: Result<(), Err>)
      modifies this`conf, this`reloads
      ensures r.Success? <==> AllParse(old(conf))
      ensures r.Failure? ==> conf == old(conf) && reloads == old(reloads)
      ensures r.Success? ==> (conf == old(conf) && reloads == old(reloads)) ||
                             (conf == Written(old(conf), expected) && reloads == old(reloads) + 1)
      ensures r.Success? && !Reads(old(conf), Seen(expected)) ==>
                conf == Written(old(conf), expected) && reloads == old(reloads) + 1
      ensures Stable(old(conf), expected) ==> conf == old(conf) && reloads == old(reloads)
    {
      var actual := ReadConf();
      if actual.Failure? {
        return Failure(actual.error);
      }
      if Stable(conf, expected) {
        ReadsUnique(conf, actual.value, Seen(expected));
      }
      if actual.value != Seen(expected) {
        conf := Written(conf, expected);
        reloads := reloads + 1;
      }
      return Success(());
    }

    /**
     * `services()` (lines 725-793): the hosts and proxies this node publishes are collected
     * over the Services in order; the names are announced again only when they changed, and
     * then the proxy files are brought in line.
     */
    method Services(services: seq<Value>) returns (r: Result<(), Err>)
      modifies this`cnames, this`announcements, this`conf, this`reloads
      ensures var wanted := Wanted(services, node, kubernetes, pods, map[]);
              wanted.Failure? ==>
                r == Failure(wanted.error) && cnames == old(cnames) && announcements == old(announcements) &&
                conf == old(conf) && reloads == old(reloads)
      ensures var wanted := Wanted(services, node, kubernetes, pods, map[]);
              wanted.Success? ==>
                cnames == wanted.value.Keys &&
                announcements == (if old(cnames) == wanted.value.Keys then old(announcements) else old(announcements) + 1) &&
                (r.Success? <==> AllParse(old(conf))) &&
                (r.Failure? ==> conf == old(conf) && reloads == old(reloads)) &&
                (r.Success? ==> (conf == old(conf) && reloads == old(reloads)) ||
                                (conf == Written(old(conf), wanted.value) && reloads == old(reloads) + 1)) &&
                (r.Success? && !Reads(old(conf), Seen(wanted.value)) ==>
                   conf == Written(old(conf), wanted.value) && reloads == old(reloads) + 1) &&
                (Stable(old(conf), wanted.value) ==> conf == old(conf) && reloads == old(reloads))
    {
      var expected: map<string, Proxy> := map[];
      var names: set<string> := {};
      var rest := services;
      while rest != []
        invariant Wanted(services, node, kubernetes, pods, map[]) == Wanted(rest, node, kubernetes, pods, expected)
        invariant names == expected.Keys
        invariant unchanged(this)
      {
        var offered := Offer(rest[0]);
        if offered.Failure? {
          return Failure(offered.error);
        }
        if offered.value.Some? {
          var (host, proxy) := offered.value.value;
          names := names + {host};
          expected := expected[host := proxy];
        }
        rest := rest[1..];
      }
      if names != cnames {
        cnames := names;
        announcements := announcements + 1;
      }
      r := Nginx(expected);
    }
  }

  /** What the read loop has established about the files done so far (all but `left`). */
  ghost predicate ReadSoFar(conf: Directory, left: set<string>, actual: map<string, Site>) {
    (forall name :: name in left ==> name in conf && Globbed(name)) &&
    (forall name :: name in conf && Globbed(name) && name !in left ==> ParseFile(conf[name]).Success?) &&
    actual.Keys == (set name | name in conf && Globbed(name) && name !in left :: HostOf(name)) &&
    forall h :: h in actual ==>
      exists name :: name in conf && Globbed(name) && name !in left && HostOf(name) == h && ParseFile(conf[name]) == Success(actual[h])
  }

  lemma ReadOneMore(conf: Directory, left: set<string>, actual: map<string, Site>, name: string, site: Site)
    requires ReadSoFar(conf, left, actual) && name in left && ParseFile(conf[name]) == Success(site)
    ensures ReadSoFar(conf, left - {name}, actual[HostOf(name) := site])
  {
    var after := actual[HostOf(name) := site];
    forall h | h in after
      ensures exists n :: n in conf && Globbed(n) && n !in left - {name} && HostOf(n) == h && ParseFile(conf[n]) == Success(after[h])
    {
      if h != HostOf(name) {
        var n :| n in conf && Globbed(n) && n !in left && HostOf(n) == h && ParseFile(conf[n]) == Success(actual[h]);
        assert n !in left - {name};
      } else {
        assert name !in left - {name};
      }
    }
  }

  lemma ReadAll(conf: Directory, actual: map<string, Site>)
    requires ReadSoFar(conf, {}, actual)
    ensures AllParse(conf) && Reads(conf, actual)
  {
    assert actual.Keys == Hosts(conf);
  }
}
