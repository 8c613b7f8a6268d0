/**
 * The proxy configuration that `nginx()` keeps in `/etc/nginx/conf.d` (lib/config.py:691-723):
 * one `<host>.conf` file per published host, holding one `SERVER` block (lines 43-54) per
 * proxied port. The directory is a map from file name to the file's lines; rendering a host
 * and reading a file back are functions over lines.
 */
module Proxy {
  import opened Wrappers
  import opened Strings
  import opened Documents

  /** One proxied port: `{"protocol", "external", "internal"}`. */
  datatype Server = Server(protocol: string, external: Value, internal: Value)

  /** What `services()` wants proxied for one host: `{"ip", "servers"}`. */
  datatype Proxy = Proxy(ip: Value, servers: seq<Server>)

  /** What reading one file gives: `{"servers"}`, and `"ip"` once a proxy_pass line was read. */
  datatype Site = Site(ip: Option<Value>, servers: seq<Server>)

  /** `/etc/nginx/conf.d`: each file's name and its lines, without their line breaks. */
  type Directory = map<string, seq<string>>

  /** The dictionary a wanted proxy is, as `expected != actual` compares it with a file read back. */
  function AsRead(p: Proxy): (r: Site)
    ensures r.ip.Some? && r.servers == p.servers
  {
    Site(Some(p.ip), p.servers)
  }

  function Seen(expected: map<string, Proxy>): (r: map<string, Site>)
    ensures r.Keys == expected.Keys
  {
    map h | h in expected :: AsRead(expected[h])
  }

  // ---------------------------------------------------------------------------
  // rendering (lines 718-721)

  const Suffix: string := ".conf"

  /** `"/etc/nginx/conf.d/%s.conf" % host`, inside the directory. */
  function FileName(host: string): string {
    host + Suffix
  }

  /** `"    listen       %s;"`. */
  function ListenLine(external: Value): string {
    "    listen       " + Format(external) + ";"
  }

  /** `"    server_name  %s;"`. */
  function ServerNameLine(host: string): string {
    "    server_name  " + host + ";"
  }

  /** `"        proxy_pass %s://%s:%s/;"`. */
  function ProxyLine(protocol: string, ip: string, internal: Value): string {
    "        proxy_pass " + protocol + "://" + ip + ":" + Format(internal) + "/;"
  }

  /** `SERVER % (server["external"], host, server["protocol"], ip, server["internal"])`, line by line. */
  function ServerLines(host: string, ip: string, server: Server): (r: seq<string>)
    ensures |r| == 11
  {
    ["server {", "", ListenLine(server.external), ServerNameLine(host), "", "    location / {",
     ProxyLine(server.protocol, ip, server.internal), "    }", "", "}", ""]
  }

  /** One block per server, in order. */
  function RenderServers(host: string, ip: string, servers: seq<Server>): (r: seq<string>)
    ensures |r| == 11 * |servers|
  {
    if servers == [] then [] else ServerLines(host, ip, servers[0]) + RenderServers(host, ip, servers[1..])
  }

  /** The lines of `host`'s file. */
  function Render(host: string, p: Proxy): seq<string> {
    RenderServers(host, Format(p.ip), p.servers)
  }

  // ---------------------------------------------------------------------------
  // reading a file back (lines 699-711)

  /** What is kept while the lines of one file are read: the last `listen` port and the site so far. */
  datatype Reading = Reading(external: Value, site: Site)

  /** Before the first line: `external = None` and `{"servers": []}`. */
  const Start: Reading := Reading(Null, Site(None, []))

  /** `int(line.split()[-1][:-1])`. */
  function ListenPort(line: string): (r: Result<Value, Err>)
    ensures r.Success? ==> r.value.Int?
  {
    var words := Words(line);
    if words == [] then Failure(ShortLine(line))   // not reached: the line holds "listen"
    else
      var text := DropLast(Last(words));
      match ParseInt(text)
      case Some(n) => Success(Int(n))
      case None => Failure(BadNumber(text))
  }

  /** One line: a `listen` line sets the port, a `proxy_pass` line adds a server and sets the ip. */
  function ReadLine(state: Reading, line: string): (r: Result<Reading, Err>)
    ensures r.Success? ==> |state.site.servers| <= |r.value.site.servers| <= |state.site.servers| + 1 &&
                           r.value.site.servers[..|state.site.servers|] == state.site.servers
    ensures r.Success? && !Contains(line, "listen") ==> r.value.external == state.external
    ensures r.Success? && !Contains(line, "proxy_pass") ==> r.value.site == state.site
  {
    var external :- (if Contains(line, "listen") then ListenPort(line) else Success(state.external));
    if !Contains(line, "proxy_pass") then Success(Reading(external, state.site))
    else
      var protocol := Last(Split(Split(line, ':')[0], ' '));
      var port := Split(Last(Split(line, ':')), '/')[0];
      match ParseInt(port)
      case None => Failure(BadNumber(port))
      case Some(internal) =>
        var pieces := Split(line, '/');
        if |pieces| < 3 then Failure(ShortLine(line))
        else
          var server := Server(protocol, external, Int(internal));
          Success(Reading(external, Site(Some(Str(Split(pieces[2], ':')[0])), state.site.servers + [server])))
  }

  /** The lines in order; the first that raises ends the reading. */
  function ReadLines(state: Reading, lines: seq<string>): Result<Reading, Err>
    decreases |lines|
  {
    if lines == [] then Success(state)
    else
      var next :- ReadLine(state, lines[0]);
      ReadLines(next, lines[1..])
  }

  /** `actual[host]` after reading the file. */
  function ParseFile(lines: seq<string>): Result<Site, Err> {
    var done :- ReadLines(Start, lines);
    Success(done.site)
  }

  /** The line loop of `nginx()`, run over the lines of one file. */
  method ReadFile(lines: seq<string>) returns (r: Result<Site, Err>)
    ensures r == ParseFile(lines)
  {
    var state := Start;
    var rest := lines;
    while rest != []
      invariant ReadLines(Start, lines) == ReadLines(state, rest)
    {
      var next := ReadLine(state, rest[0]);
      if next.Failure? {
        return Failure(next.error);
      }
      state := next.value;
      rest := rest[1..];
    }
    return Success(state.site);
  }

  // ---------------------------------------------------------------------------
  // the directory (lines 693-697, 713-723)

  /** The names the glob of `.conf` files yields: ending in `.conf`, not hidden. */
  predicate Globbed(name: string) {
    var cut := |name| - |Suffix|;
    cut > 0 && name[cut..] == Suffix && name[0] != '.'
  }

  /** `nginx_path.split("/")[-1].split(".conf")[0]`. */
  function HostOf(name: string): string {
    Before(name, Suffix)
  }

  /** Every file that is read parses. */
  predicate AllParse(conf: Directory) {
    forall name :: name in conf && Globbed(name) ==> ParseFile(conf[name]).Success?
  }

  /** The hosts of the files that are read. */
  function Hosts(conf: Directory): set<string> {
    set name | name in conf && Globbed(name) :: HostOf(name)
  }

  /**
   * `actual` is a result of reading `conf` in some order: one entry per host, each the site
   * of a file of that host (the last one read, when several files name the same host).
   */
  ghost predicate Reads(conf: Directory, actual: map<string, Site>) {
    actual.Keys == Hosts(conf) &&
    forall h :: h in actual ==>
      exists name :: name in conf && Globbed(name) && HostOf(name) == h && ParseFile(conf[name]) == Success(actual[h])
  }

  /** No two files that are read name the same host. */
  predicate Unambiguous(conf: Directory) {
    forall a, b :: a in conf && b in conf && Globbed(a) && Globbed(b) && HostOf(a) == HostOf(b) ==> a == b
  }

  /** Removing every `.conf` file, then one file per host. */
  function Written(conf: Directory, expected: map<string, Proxy>): (r: Directory)
    ensures forall h :: h in expected ==> FileName(h) in r && r[FileName(h)] == Render(h, expected[h])
  {
    var kept := map name | name in conf && !Globbed(name) :: conf[name];
    FileNamesDiffer();
    kept + map h | h in expected :: FileName(h) := Render(h, expected[h])
  }

  /** Different hosts get different files. */
  lemma FileNamesDiffer()
    ensures forall a, b :: FileName(a) == FileName(b) ==> a == b
  {
    forall a, b | FileName(a) == FileName(b)
      ensures a == b
    {
      assert a == FileName(a)[..|a|] && b == FileName(b)[..|b|];
    }
  }

  // ---------------------------------------------------------------------------
  // reading back what was written

  /** A line that neither sets the port nor adds a server. */
  predicate Plain(line: string) {
    !Contains(line, "listen") && !Contains(line, "proxy_pass")
  }

  /** A protocol or an ip that a proxy_pass line gives back: nothing it is split on, no "listen", one line. */
  predicate Field(s: string) {
    ':' !in s && '/' !in s && '\n' !in s && !Contains(s, "listen")
  }

  predicate RenderableServer(server: Server) {
    server.external.Int? && server.internal.Int? && Field(server.protocol) && ' ' !in server.protocol
  }

  /**
   * A host whose file is read back under its own name: a visible file name free of `.conf`,
   * `/` and line breaks, and a server_name line that is neither a listen nor a proxy_pass line.
   */
  predicate RenderableHost(host: string) {
    host != [] && host[0] != '.' && '/' !in host && '\n' !in host &&
    !Contains(host, Suffix) && !Contains(host, "listen") && !Contains(host, "proxy_pass")
  }

  /** What `services()` can want proxied such that the file written reads back as it. */
  predicate Renderable(host: string, p: Proxy) {
    RenderableHost(host) && p.ip.Str? && Field(p.ip.s) && p.servers != [] &&
    forall i :: 0 <= i < |p.servers| ==> RenderableServer(p.servers[i])
  }

  lemma {:induction false} ReadLinesAppend(state: Reading, a: seq<string>, b: seq<string>)
    ensures ReadLines(state, a + b) ==
            match ReadLines(state, a)
            case Success(next) => ReadLines(next, b)
            case Failure(e) => Failure(e)
    decreases |a|
  {
    if a == [] {
      assert a + b == b;
    } else {
      assert (a + b)[0] == a[0] && (a + b)[1..] == a[1..] + b;
      if ReadLine(state, a[0]).Success? {
        ReadLinesAppend(ReadLine(state, a[0]).value, a[1..], b);
      }
    }
  }

  lemma ReadPlain(state: Reading, line: string)
    requires Plain(line)
    ensures ReadLine(state, line) == Success(state)
  {
  }

  lemma {:induction false} ReadPlains(state: Reading, lines: seq<string>)
    requires forall i :: 0 <= i < |lines| ==> Plain(lines[i])
    ensures ReadLines(state, lines) == Success(state)
    decreases |lines|
  {
    if lines != [] {
      ReadPlain(state, lines[0]);
      ReadPlains(state, lines[1..]);
    }
  }

  /** The lines of the template with nothing substituted read as nothing. */
  lemma PlainTemplateLines()
    ensures Plain("server {") && Plain("") && Plain("    location / {") && Plain("    }") && Plain("}")
  {
    NotContainedFirst("server {", "listen");
    NotContainedFirst("server {", "proxy_pass");
    NotContainedShort("", "listen");
    NotContainedShort("", "proxy_pass");
    NotContainedShort("    }", "listen");
    NotContainedShort("    }", "proxy_pass");
    NotContainedShort("}", "listen");
    NotContainedShort("}", "proxy_pass");
    var location := "    location / {";
    NotContainedFirst(location, "proxy_pass");
    forall i | 0 <= i && i + 6 <= |location|
      ensures !OccursAt(location, "listen", i)
    {
      if location[i] == 'l' {
        assert i == 4 && location[i + 1] == 'o';
        assert location[i..i + 6][1] == 'o';
      } else {
        assert location[i..i + 6][0] != 'l';
      }
    }
  }

  /** A rendered listen line is a listen line and no proxy_pass line. */
  lemma ListenLineKind(external: int)
    ensures Contains(ListenLine(Int(external)), "listen") && !Contains(ListenLine(Int(external)), "proxy_pass")
  {
    var line := ListenLine(Int(external));
    assert line[4..10] == "listen";
    ContainsAt(line, "listen", 4);
    assert 'p' !in line;
    NotContainedFirst(line, "proxy_pass");
  }

  /** The port of a rendered listen line comes back. */
  lemma ListenLinePort(external: int)
    ensures ListenPort(ListenLine(Int(external))) == Success(Int(external))
  {
    var digits := IntToString(external);
    var t := digits + ";";
    assert ListenLine(Int(external)) == "    listen      " + [' '] + t;
    WordsEndingWith("    listen      ", t);
    assert DropLast(t) == digits;
    ParseIntRoundTrip(external);
  }

  lemma ReadListen(state: Reading, external: int)
    ensures ReadLine(state, ListenLine(Int(external))) == Success(Reading(Int(external), state.site))
  {
    ListenLineKind(external);
    ListenLinePort(external);
  }

  lemma ReadServerName(state: Reading, host: string)
    requires RenderableHost(host)
    ensures ReadLine(state, ServerNameLine(host)) == Success(state)
  {
    var head := "    server_name ";
    var tail := host + [';'] + "";
    assert ServerNameLine(host) == head + [' '] + tail;
    NotContainedShort("", "listen");
    NotContainedShort("", "proxy_pass");
    NotContainedAround(host, ';', "", "listen");
    NotContainedAround(host, ';', "", "proxy_pass");
    NotContainedFirst(head, "listen");
    NotContainedFirst(head, "proxy_pass");
    NotContainedAround(head, ' ', tail, "listen");
    NotContainedAround(head, ' ', tail, "proxy_pass");
    ReadPlain(state, ServerNameLine(host));
  }

  /** A rendered proxy_pass line is no listen line. */
  lemma ProxyLineNotListen(protocol: string, ip: string, port: string)
    requires Field(protocol) && Field(ip) && 'l' !in port
    ensures !Contains("        proxy_pass " + protocol + "://" + ip + ":" + port + "/;", "listen")
  {
    var pat := "listen";
    NotContainedFirst(port, pat);
    NotContainedShort(";", pat);
    NotContainedShort("", pat);
    NotContainedFirst("        proxy_pass", pat);
    var x1 := port + ['/'] + ";";
    NotContainedAround(port, '/', ";", pat);
    var x2 := ip + [':'] + x1;
    NotContainedAround(ip, ':', x1, pat);
    var x3 := "" + ['/'] + x2;
    NotContainedAround("", '/', x2, pat);
    var x4 := "" + ['/'] + x3;
    NotContainedAround("", '/', x3, pat);
    var x5 := protocol + [':'] + x4;
    NotContainedAround(protocol, ':', x4, pat);
    NotContainedAround("        proxy_pass", ' ', x5, pat);
    assert "        proxy_pass " + protocol + "://" + ip + ":" + port + "/;" == "        proxy_pass" + [' '] + x5;
  }

  /** The rendered proxy_pass line, with the internal port as text. */
  function ProxyText(protocol: string, ip: string, port: string): string {
    "        proxy_pass " + protocol + "://" + ip + ":" + port + "/;"
  }

  /** Its pieces between colons. */
  lemma ProxyColons(protocol: string, ip: string, port: string)
    requires ':' !in protocol && ':' !in ip && ':' !in port
    ensures Split(ProxyText(protocol, ip, port), ':') == ["        proxy_pass " + protocol, "//" + ip, port + "/;"]
  {
    var a := "        proxy_pass " + protocol;
    var b := "//" + ip;
    var c := port + "/;";
    assert ProxyText(protocol, ip, port) == a + [':'] + (b + [':'] + c);
    SplitOnNone(b, {':'});
    SplitOnNone(c, {':'});
    SplitOnAround(b, ':', c, {':'});
    SplitOnAround(a, ':', b + [':'] + c, {':'});
    SplitOnNone(a, {':'});
  }

  /** Its pieces between slashes. */
  lemma ProxySlashes(protocol: string, ip: string, port: string)
    requires '/' !in protocol && '/' !in ip && '/' !in port
    ensures Split(ProxyText(protocol, ip, port), '/') == ["        proxy_pass " + protocol + ":", "", ip + ":" + port, ";"]
  {
    var p0 := "        proxy_pass " + protocol + ":";
    var p2 := ip + ":" + port;
    var tail := p2 + ['/'] + ";";
    assert ProxyText(protocol, ip, port) == p0 + ['/'] + ("" + ['/'] + tail);
    SplitOnNone(p2, {'/'});
    SplitOnNone(";", {'/'});
    SplitOnAround(p2, '/', ";", {'/'});
    SplitOnAround("", '/', tail, {'/'});
    SplitOnAround(p0, '/', "" + ['/'] + tail, {'/'});
    SplitOnNone(p0, {'/'});
  }

  /** The protocol is the last word before the first colon. */
  lemma ProtocolBack(protocol: string)
    requires ' ' !in protocol
    ensures Last(Split("        proxy_pass " + protocol, ' ')) == protocol
  {
    assert "        proxy_pass " + protocol == "        proxy_pass" + [' '] + protocol;
    LastPiece("        proxy_pass", ' ', protocol, {' '});
  }

  /** The internal port precedes the slash that follows it. */
  lemma PortBack(port: string)
    requires '/' !in port
    ensures Split(port + "/;", '/')[0] == port
  {
    assert port + "/;" == port + ['/'] + ";";
    FirstPiece(port, '/', ";", {'/'});
  }

  /** The ip precedes the colon of the third slash piece. */
  lemma IpBack(ip: string, port: string)
    requires ':' !in ip
    ensures Split(ip + ":" + port, ':')[0] == ip
  {
    assert ip + ":" + port == ip + [':'] + port;
    FirstPiece(ip, ':', port, {':'});
  }

  /** A rendered proxy_pass line is a proxy_pass line and no listen line. */
  lemma ProxyLineKind(protocol: string, ip: string, internal: int)
    requires Field(protocol) && Field(ip)
    ensures Contains(ProxyLine(protocol, ip, Int(internal)), "proxy_pass")
    ensures !Contains(ProxyLine(protocol, ip, Int(internal)), "listen")
  {
    var port := IntToString(internal);
    var line := ProxyLine(protocol, ip, Int(internal));
    assert line == ProxyText(protocol, ip, port);
    ProxyLineNotListen(protocol, ip, port);
    assert line[8..18] == "proxy_pass";
    ContainsAt(line, "proxy_pass", 8);
  }

  /** The protocol, the internal port and the ip of a rendered proxy_pass line come back. */
  lemma ProxyLineFields(protocol: string, ip: string, internal: int)
    requires Field(protocol) && ' ' !in protocol && Field(ip)
    ensures var line := ProxyLine(protocol, ip, Int(internal));
            Last(Split(Split(line, ':')[0], ' ')) == protocol &&
            ParseInt(Split(Last(Split(line, ':')), '/')[0]) == Some(internal) &&
            |Split(line, '/')| >= 3 && Split(Split(line, '/')[2], ':')[0] == ip
  {
    var port := IntToString(internal);
    assert ProxyLine(protocol, ip, Int(internal)) == ProxyText(protocol, ip, port);
    ProxyColons(protocol, ip, port);
    ProxySlashes(protocol, ip, port);
    ProtocolBack(protocol);
    PortBack(port);
    IpBack(ip, port);
    ParseIntRoundTrip(internal);
  }

  lemma ReadProxy(state: Reading, protocol: string, ip: string, internal: int)
    requires Field(protocol) && ' ' !in protocol && Field(ip)
    ensures ReadLine(state, ProxyLine(protocol, ip, Int(internal))) ==
            Success(Reading(state.external, Site(Some(Str(ip)), state.site.servers + [Server(protocol, state.external, Int(internal))])))
  {
    ProxyLineKind(protocol, ip, internal);
    ProxyLineFields(protocol, ip, internal);
  }

  lemma ReadOne(state: Reading, line: string, rest: seq<string>)
    requires ReadLine(state, line).Success?
    ensures ReadLines(state, [line] + rest) == ReadLines(ReadLine(state, line).value, rest)
  {
    assert ([line] + rest)[1..] == rest;
  }

  lemma ReadPlainsThen(state: Reading, plain: seq<string>, rest: seq<string>)
    requires forall i :: 0 <= i < |plain| ==> Plain(plain[i])
    ensures ReadLines(state, plain + rest) == ReadLines(state, rest)
  {
    ReadLinesAppend(state, plain, rest);
    ReadPlains(state, plain);
  }

  /** The block up to the proxy_pass line sets the port and nothing else. */
  lemma ReadHead(state: Reading, host: string, external: int, rest: seq<string>)
    requires RenderableHost(host)
    ensures ReadLines(state, ["server {", "", ListenLine(Int(external)), ServerNameLine(host), "", "    location / {"] + rest) ==
            ReadLines(Reading(Int(external), state.site), rest)
  {
    PlainTemplateLines();
    var listen := ListenLine(Int(external));
    var name := ServerNameLine(host);
    var p1 := ["server {", ""];
    var p2 := ["", "    location / {"];
    assert ["server {", "", listen, name, "", "    location / {"] + rest == p1 + ([listen] + ([name] + (p2 + rest)));
    ReadPlainsThen(state, p1, [listen] + ([name] + (p2 + rest)));
    ReadListen(state, external);
    ReadOne(state, listen, [name] + (p2 + rest));
    var s1 := Reading(Int(external), state.site);
    ReadServerName(s1, host);
    ReadOne(s1, name, p2 + rest);
    ReadPlainsThen(s1, p2, rest);
  }

  /** The proxy_pass line and what follows it add the server and set the ip. */
  lemma ReadTail(state: Reading, protocol: string, ip: string, internal: int)
    requires Field(protocol) && ' ' !in protocol && Field(ip)
    ensures ReadLines(state, [ProxyLine(protocol, ip, Int(internal)), "    }", "", "}", ""]) ==
            Success(Reading(state.external, Site(Some(Str(ip)), state.site.servers + [Server(protocol, state.external, Int(internal))])))
  {
    PlainTemplateLines();
    var p3 := ["    }", "", "}", ""];
    var proxy := ProxyLine(protocol, ip, Int(internal));
    assert [proxy, "    }", "", "}", ""] == [proxy] + p3;
    ReadProxy(state, protocol, ip, internal);
    ReadOne(state, proxy, p3);
    ReadPlains(ReadLine(state, proxy).value, p3);
  }

  /** One rendered block adds its server and sets the ip. */
  lemma ReadServer(state: Reading, host: string, ip: string, server: Server, rest: seq<string>)
    requires RenderableHost(host) && Field(ip) && RenderableServer(server)
    ensures ReadLines(state, ServerLines(host, ip, server) + rest) ==
            ReadLines(Reading(server.external, Site(Some(Str(ip)), state.site.servers + [server])), rest)
  {
    var tail := [ProxyLine(server.protocol, ip, server.internal), "    }", "", "}", ""];
    var head := ["server {", "", ListenLine(server.external), ServerNameLine(host), "", "    location / {"];
    assert ServerLines(host, ip, server) + rest == head + (tail + rest);
    ReadHead(state, host, server.external.i, tail + rest);
    var s1 := Reading(server.external, state.site);
    ReadLinesAppend(s1, tail, rest);
    ReadTail(s1, server.protocol, ip, server.internal.i);
  }

  /** What reading the blocks of `servers` leaves. */
  function ReadBack(state: Reading, ip: string, servers: seq<Server>): (r: Reading)
    ensures r.site.servers == state.site.servers + servers
  {
    if servers == [] then state
    else Reading(servers[|servers| - 1].external, Site(Some(Str(ip)), state.site.servers + servers))
  }

  /** The blocks of a host add their servers in order. */
  lemma {:induction false} ReadServers(state: Reading, host: string, ip: string, servers: seq<Server>)
    requires RenderableHost(host) && Field(ip)
    requires forall i :: 0 <= i < |servers| ==> RenderableServer(servers[i])
    ensures ReadLines(state, RenderServers(host, ip, servers)) == Success(ReadBack(state, ip, servers))
    decreases |servers|
  {
    if servers != [] {
      var rest := servers[1..];
      assert forall i :: 0 <= i < |rest| ==> rest[i] == servers[i + 1];
      assert RenderServers(host, ip, servers) == ServerLines(host, ip, servers[0]) + RenderServers(host, ip, rest);
      ReadServer(state, host, ip, servers[0], RenderServers(host, ip, rest));
      var next := Reading(servers[0].external, Site(Some(Str(ip)), state.site.servers + [servers[0]]));
      ReadServers(next, host, ip, rest);
      ReadBackCons(state, ip, servers);
    }
  }

  lemma ReadBackCons(state: Reading, ip: string, servers: seq<Server>)
    requires servers != []
    ensures ReadBack(Reading(servers[0].external, Site(Some(Str(ip)), state.site.servers + [servers[0]])), ip, servers[1..]) ==
            ReadBack(state, ip, servers)
  {
    var rest := servers[1..];
    assert state.site.servers + [servers[0]] + rest == state.site.servers + servers;
    if rest != [] {
      assert rest[|rest| - 1] == servers[|servers| - 1];
    }
  }

  /**
   * A target port given by name (`targetPort: http`) is written into the proxy_pass line as
   * that name, and `int(...)` of line 709 raises on it.
   */
  lemma NamedPortUnreadable(state: Reading, protocol: string, ip: string, name: string)
    requires Field(protocol) && ' ' !in protocol && Field(ip) && Field(name) && 'l' !in name && ParseInt(name).None?
    ensures ReadLine(state, ProxyLine(protocol, ip, Str(name))) == Failure(BadNumber(name))
  {
    var line := ProxyLine(protocol, ip, Str(name));
    assert line == ProxyText(protocol, ip, name);
    ProxyLineNotListen(protocol, ip, name);
    ProxyColons(protocol, ip, name);
    PortBack(name);
    assert line[8..18] == "proxy_pass";
    ContainsAt(line, "proxy_pass", 8);
  }

  /** The block of a server with a named target port stops the reading at its proxy_pass line. */
  lemma NamedPortBlockUnreadable(state: Reading, host: string, ip: string, protocol: string, external: int, name: string)
    requires RenderableHost(host) && Field(ip) && Field(protocol) && ' ' !in protocol
    requires Field(name) && 'l' !in name && ParseInt(name).None?
    ensures ReadLines(state, ServerLines(host, ip, Server(protocol, Int(external), Str(name)))) == Failure(BadNumber(name))
  {
    var proxy := ProxyLine(protocol, ip, Str(name));
    var tail := [proxy, "    }", "", "}", ""];
    assert ServerLines(host, ip, Server(protocol, Int(external), Str(name))) ==
           ["server {", "", ListenLine(Int(external)), ServerNameLine(host), "", "    location / {"] + tail;
    ReadHead(state, host, external, tail);
    NamedPortUnreadable(Reading(Int(external), state.site), protocol, ip, name);
  }

  /** So the file of a host whose first server has a named target port never reads back. */
  lemma NamedPortFileUnreadable(host: string, ip: string, protocol: string, external: int, name: string, rest: seq<Server>)
    requires RenderableHost(host) && Field(ip) && Field(protocol) && ' ' !in protocol
    requires Field(name) && 'l' !in name && ParseInt(name).None?
    ensures ParseFile(Render(host, Proxy(Str(ip), [Server(protocol, Int(external), Str(name))] + rest))) ==
            Failure(BadNumber(name))
  {
    var server := Server(protocol, Int(external), Str(name));
    var servers := [server] + rest;
    assert servers[0] == server && servers[1..] == rest;
    assert Render(host, Proxy(Str(ip), servers)) == ServerLines(host, ip, server) + RenderServers(host, ip, rest);
    ReadLinesAppend(Start, ServerLines(host, ip, server), RenderServers(host, ip, rest));
    NamedPortBlockUnreadable(Start, host, ip, protocol, external, name);
  }

  lemma HttpIsNoNumber()
    ensures ParseInt("http").None?
  {
    assert Strip("http") == "http";
  }

  /** `targetPort: http` on port 80, as `services()` copies it. */
  lemma NamedPortExample()
    ensures ParseFile(Render("web", Proxy(Str("10.0.0.5"), [Server("http", Int(80), Str("http"))]))).Failure?
  {
    NotContainedFirst("web", Suffix);
    NotContainedFirst("web", "listen");
    NotContainedFirst("web", "proxy_pass");
    HttpIsNoNumber();
    NamedPortFileUnreadable("web", "10.0.0.5", "http", 80, "http", []);
    assert [Server("http", Int(80), Str("http"))] + [] == [Server("http", Int(80), Str("http"))];
  }

  /** A host's file reads back as the proxy it was written from: what the comparison of `nginx()` relies on. */
  lemma ParseRender(host: string, p: Proxy)
    requires Renderable(host, p)
    ensures ParseFile(Render(host, p)) == Success(AsRead(p))
  {
    ReadServers(Start, host, p.ip.s, p.servers);
    assert [] + p.servers == p.servers;
    assert Format(p.ip) == p.ip.s && Str(p.ip.s) == p.ip;
  }

  // ---------------------------------------------------------------------------
  // the directory read back

  /** A renderable host's file is read, under the host's name. */
  lemma FileNameRead(host: string)
    requires RenderableHost(host)
    ensures Globbed(FileName(host)) && HostOf(FileName(host)) == host
  {
    var name := FileName(host);
    assert name[|name| - |Suffix|..] == Suffix;
    assert Suffix[1..] == "conf";
    BeforeAppended(host, Suffix);
  }

  /** The files read after writing are the hosts' own files. */
  lemma WrittenGlobbed(conf: Directory, expected: map<string, Proxy>, name: string)
    requires name in Written(conf, expected) && Globbed(name)
    ensures exists h :: h in expected && name == FileName(h)
  {
  }

  /** With one file per host, one reading is possible. */
  lemma ReadsUnique(conf: Directory, a: map<string, Site>, b: map<string, Site>)
    requires Unambiguous(conf) && Reads(conf, a) && Reads(conf, b)
    ensures a == b
  {
    forall h | h in a
      ensures a[h] == b[h]
    {
      SameEntry(conf, a, b, h);
    }
  }

  lemma SameEntry(conf: Directory, a: map<string, Site>, b: map<string, Site>, h: string)
    requires Unambiguous(conf) && Reads(conf, a) && Reads(conf, b) && h in a
    ensures h in b && a[h] == b[h]
  {
    var n := FileOf(conf, a, h);
    var m := FileOf(conf, b, h);
    assert n == m;
  }

  /** The file a host's entry was read from. */
  lemma FileOf(conf: Directory, actual: map<string, Site>, h: string) returns (name: string)
    requires Reads(conf, actual) && h in actual
    ensures name in conf && Globbed(name) && HostOf(name) == h && ParseFile(conf[name]) == Success(actual[h])
  {
    name :| name in conf && Globbed(name) && HostOf(name) == h && ParseFile(conf[name]) == Success(actual[h]);
  }

  /** Every file read after writing is a host's file and reads back as its proxy. */
  lemma WrittenFile(conf: Directory, expected: map<string, Proxy>, name: string)
    requires forall h :: h in expected ==> Renderable(h, expected[h])
    requires name in Written(conf, expected) && Globbed(name)
    ensures HostOf(name) in expected && name == FileName(HostOf(name))
    ensures ParseFile(Written(conf, expected)[name]) == Success(AsRead(expected[HostOf(name)]))
  {
    WrittenGlobbed(conf, expected, name);
    var h :| h in expected && name == FileName(h);
    FileNameRead(h);
    ParseRender(h, expected[h]);
  }

  lemma WrittenHosts(conf: Directory, expected: map<string, Proxy>)
    requires forall h :: h in expected ==> Renderable(h, expected[h])
    ensures Hosts(Written(conf, expected)) == expected.Keys
  {
    var w := Written(conf, expected);
    forall h | h in Hosts(w)
      ensures h in expected
    {
      var name :| name in w && Globbed(name) && HostOf(name) == h;
      WrittenFile(conf, expected, name);
    }
    forall h | h in expected
      ensures h in Hosts(w)
    {
      FileNameRead(h);
      HostIn(w, FileName(h));
    }
  }

  lemma HostIn(conf: Directory, name: string)
    requires name in conf && Globbed(name)
    ensures HostOf(name) in Hosts(conf)
  {
  }

  lemma WrittenUnambiguous(conf: Directory, expected: map<string, Proxy>)
    requires forall h :: h in expected ==> Renderable(h, expected[h])
    ensures Unambiguous(Written(conf, expected))
  {
    var w := Written(conf, expected);
    forall a, b | a in w && b in w && Globbed(a) && Globbed(b) && HostOf(a) == HostOf(b)
      ensures a == b
    {
      WrittenFile(conf, expected, a);
      WrittenFile(conf, expected, b);
    }
  }

  lemma WrittenParses(conf: Directory, expected: map<string, Proxy>)
    requires forall h :: h in expected ==> Renderable(h, expected[h])
    ensures AllParse(Written(conf, expected))
  {
    forall name | name in Written(conf, expected) && Globbed(name)
      ensures ParseFile(Written(conf, expected)[name]).Success?
    {
      WrittenFile(conf, expected, name);
    }
  }

  /**
   * Once the files of renderable hosts are written, they all parse, no host has two files,
   * and reading them gives exactly the hosts' proxies: the next comparison finds no difference.
   */
  lemma WrittenReadsBack(conf: Directory, expected: map<string, Proxy>)
    requires forall h :: h in expected ==> Renderable(h, expected[h])
    ensures AllParse(Written(conf, expected)) && Unambiguous(Written(conf, expected))
    ensures Reads(Written(conf, expected), Seen(expected))
  {
    var w := Written(conf, expected);
    WrittenParses(conf, expected);
    WrittenUnambiguous(conf, expected);
    WrittenHosts(conf, expected);
    forall h | h in Seen(expected)
      ensures exists name :: name in w && Globbed(name) && HostOf(name) == h && ParseFile(w[name]) == Success(Seen(expected)[h])
    {
      FileNameRead(h);
      WrittenFile(conf, expected, FileName(h));
    }
  }
}
