/** The DNS server state of pkg/dns/dns.go: what service and endpoint events do to the three
    structures the server keeps in step. */
module KubeDnsModel {
  import opened Text
  import opened Wrappers
  import opened TreeCaches

  datatype Port = Port(name: string, protocol: string, port: int)

  datatype Service = Service(ns: string, name: string, clusterIP: string, ports: seq<Port>)

  datatype Address = Address(ip: string, hostname: string)

  datatype Subset = Subset(addresses: seq<Address>, ports: seq<Port>)

  /** `podHostnames` is the decoded hostname annotation: None when it does not decode. */
  datatype Endpoints = Endpoints(ns: string, name: string, podHostnames: Option<map<string, string>>,
                                 subsets: seq<Subset>)

  /** What the server is configured with, and the foreign functions it calls: the hash label of a
      record, the etcd key of a name, and whether a string parses as an IP address. */
  datatype Config = Config(domain: string, federations: map<string, string>, hashLabel: Record -> string,
                           etcdKey: string -> string, parsesAsIP: string -> bool)
  {
    function DomainPath(): seq<string> {
      Reverse(Split(TrimRight(domain, '.'), "."))
    }

    /** The node that holds the records of one service. */
    function ServicePath(ns: string, name: string): Path {
      Sub(Sub(Sub(Walk(DomainPath()), "svc"), ns), name)
    }

    function SkyMsg(host: string, port: int): Record {
      Record(host, port, 10, 10, 30, "")
    }

    function LabelOf(host: string): string {
      hashLabel(SkyMsg(host, 0))
    }

    function Fqdn(svc: Service, subpaths: seq<string>): string {
      var s := Join(Reverse(DomainPath() + ["svc", svc.ns, svc.name] + subpaths), ".");
      if HasSuffix(s, ".") then s else s + "."
    }

    function ServiceFQDN(svc: Service): string {
      Join([svc.name, svc.ns, "svc", domain], ".")
    }

    /** e.g. {"local", "cluster", "pod", "default", "10-0-0-1"} */
    predicate IsPodRecord(path: seq<string>) {
      && |path| == |DomainPath()| + 3
      && path[|DomainPath()|] == "pod"
      && "*" !in path
    }

    function PodIP(path: seq<string>): Result<string>
      requires path != []
    {
      var ip := DashesToDots(Last(path));
      if parsesAsIP(ip) then Ok(ip) else Err(InvalidIP)
    }

    /** `path` reads service.namespace.federation.svc.domain, with a federation we belong to. */
    predicate IsFederationQuery(path: seq<string>) {
      && |path| == 4 + |DomainPath()|
      && IsDNS952Label(path[0]) && IsDNS1123Label(path[1]) && IsDNS1123Label(path[2])
      && path[3] == "svc"
      && (forall i :: 0 <= i < |DomainPath()| ==> DomainPath()[i] == path[|path| - i - 1])
      && path[2] in federations
    }

    function SrvRecord(svc: Service, port: int, labels: seq<string>): Record {
      SkyMsg(PrefixLabels(labels, ServiceFQDN(svc)), port)
    }
  }

  datatype Error = KeyNotFound | InvalidIP | NotAReverseName | NoReverseRecord | NoZoneOrRegion | BadFederationDomain

  datatype Result<T> = Ok(value: T) | Err(error: Error)

  function DashesToDots(s: string): string {
    seq(|s|, i requires 0 <= i < |s| => if s[i] == '-' then '.' else s[i])
  }

  function PrefixLabels(labels: seq<string>, host: string): string {
    if labels == [] then host else PrefixLabels(labels[1..], labels[0] + "." + host)
  }

  predicate IsServiceIPSet(svc: Service) {
    svc.clusterIP != "None" && svc.clusterIP != ""
  }

  predicate Alphanumeric(c: char) { 'a' <= c <= 'z' || '0' <= c <= '9' }

  /** The shape `[a-z0-9]([-a-z0-9]*[a-z0-9])?`. */
  predicate LabelShape(s: string) {
    && s != [] && Alphanumeric(s[0]) && Alphanumeric(s[|s| - 1])
    && forall i :: 0 <= i < |s| ==> Alphanumeric(s[i]) || s[i] == '-'
  }

  predicate IsDNS1123Label(s: string) { |s| <= 63 && LabelShape(s) }

  predicate IsDNS952Label(s: string) { |s| <= 24 && LabelShape(s) && !('0' <= s[0] <= '9') }

  predicate IsDNS1123Subdomain(s: string) {
    |s| <= 253 && forall p :: p in Split(s, ".") ==> LabelShape(p)
  }

  // ---- The records of one service, as the entries put into its fresh subtree in order ----

  datatype Put = Put(path: seq<string>, key: string, rec: Record)

  /** The flat map left by putting the entries into an empty tree. */
  ghost function Fill(puts: seq<Put>): Flat {
    if puts == [] then imap[]
    else
      var p := puts[|puts| - 1];
      Fill(puts[..|puts| - 1])[Loc(Walk(p.path), p.key) := p.rec]
  }

  function PutAt(cfg: Config, svc: Service, path: seq<string>, key: string, rec: Record): Put {
    Put(path, key, rec.(key := cfg.etcdKey(cfg.Fqdn(svc, path + [key]))))
  }

  function PortPath(p: Port): seq<string> {
    ["_" + ToLower(p.protocol), "_" + p.name]
  }

  function PortPuts(cfg: Config, svc: Service, ports: seq<Port>, key: string, labels: seq<string>): seq<Put> {
    if ports == [] then []
    else
      var p := ports[|ports| - 1];
      PortPuts(cfg, svc, ports[..|ports| - 1], key, labels) +
      if p.name != "" && p.protocol != ""
      then [PutAt(cfg, svc, PortPath(p), key, cfg.SrvRecord(svc, p.port, labels))] else []
  }

  function PortalPuts(cfg: Config, svc: Service): seq<Put> {
    var recordLabel := cfg.LabelOf(svc.clusterIP);
    [PutAt(cfg, svc, [], recordLabel, cfg.SkyMsg(svc.clusterIP, 0))] + PortPuts(cfg, svc, svc.ports, recordLabel, [])
  }

  function EndpointName(cfg: Config, a: Address, podHostnames: map<string, string>): string {
    if a.hostname != "" then a.hostname
    else if a.ip in podHostnames && IsDNS1123Label(podHostnames[a.ip]) then podHostnames[a.ip]
    else cfg.LabelOf(a.ip)
  }

  function AddressPuts(cfg: Config, svc: Service, addresses: seq<Address>, ports: seq<Port>,
                       podHostnames: map<string, string>): seq<Put> {
    if addresses == [] then []
    else
      var a := addresses[|addresses| - 1];
      var name := EndpointName(cfg, a, podHostnames);
      AddressPuts(cfg, svc, addresses[..|addresses| - 1], ports, podHostnames)
      + [PutAt(cfg, svc, [], name, cfg.SkyMsg(a.ip, 0))] + PortPuts(cfg, svc, ports, name, [name])
  }

  function HeadlessPuts(cfg: Config, svc: Service, subsets: seq<Subset>, podHostnames: map<string, string>): seq<Put> {
    if subsets == [] then []
    else
      var s := subsets[|subsets| - 1];
      HeadlessPuts(cfg, svc, subsets[..|subsets| - 1], podHostnames)
      + AddressPuts(cfg, svc, s.addresses, s.ports, podHostnames)
  }

  // ---- What a query is answered with ----

  const ARPA_SUFFIX := ".in-addr.arpa."

  /** The address a PTR lookup name asks about. */
  function ExtractIP(reverseName: string): Option<string> {
    if !HasSuffix(reverseName, ARPA_SUFFIX) then None
    else Some(Join(Reverse(Split(TrimSuffix(reverseName, ARPA_SUFFIX), ".")), "."))
  }

  /** The PTR lookup name of an address: its labels reversed, then the suffix of RFC 1035, section 3.5. */
  function ReverseName(ip: string): string {
    Join(Reverse(Split(ip, ".")), ".") + ARPA_SUFFIX
  }

  /** Extraction undoes reversal, and reversal undoes extraction. */
  lemma ExtractIPUndoesReversal(ip: string)
    ensures ExtractIP(ReverseName(ip)) == Some(ip)
  {
    hide Join, Split;
    var name := ReverseName(ip);
    ReversedTwice(ip);
    assert TrimSuffix(name, ARPA_SUFFIX) == Join(Reverse(Split(ip, ".")), ".");
  }

  lemma ReversalUndoesExtractIP(name: string)
    ensures ExtractIP(name).Some? ==> ReverseName(ExtractIP(name).value) == name
  {
    hide Join, Split;
    if ExtractIP(name).Some? {
      var search := TrimSuffix(name, ARPA_SUFFIX);
      ReversedTwice(search);
      assert name == search + ARPA_SUFFIX;
    }
  }

  lemma ReversedTwice(s: string)
    ensures Join(Reverse(Split(Join(Reverse(Split(s, ".")), "."), ".")), ".") == s
  {
    hide Join, Split;
    var labels := Split(s, ".");
    SplitFree(s, '.');
    assert Free(Reverse(labels), '.');
    SplitJoin(Reverse(labels), '.');
    ReverseReverse(labels);
  }

  /** What a reverse lookup is answered with. */
  function ReverseAnswer(reverse: map<string, Record>, name: string): Result<Record> {
    match ExtractIP(name)
    case None => Err(NotAReverseName)
    case Some(ip) => if ip in reverse then Ok(reverse[ip]) else Err(NoReverseRecord)
  }

  function Segments(name: string): (segments: seq<string>)
    ensures |segments| >= 1
  {
    Split(TrimRight(name, '.'), ".")
  }

  /** The answer to a query for the local service at `path`; `locs` are the places of its records. */
  ghost predicate LocalAnswer(cfg: Config, f: Flat, path: seq<string>, exact: bool, r: Result<seq<Record>>, locs: seq<Loc>)
    requires path != []
  {
    if cfg.IsPodRecord(path) then
      r == match cfg.PodIP(path) { case Ok(ip) => Ok([cfg.SkyMsg(ip, 0)]) case Err(e) => Err(e) }
    else if exact then
      r == if Last(path) == "" then Ok([])
           else if Loc(Walk(Front(path)), Last(path)) in f then Ok([f[Loc(Walk(Front(path)), Last(path))]])
           else Err(KeyNotFound)
    else
      r.Ok? && Lists(f, locs, r.value) && forall l :: l in locs <==> l in f && Answers(f, path, l)
  }

  function CName(host: string): Record { Record(host, 0, 0, 0, 0, "") }

  /** The name that a federated query is first tried under, without the federation label. */
  function LocalName(cfg: Config, segments: seq<string>): string
    requires cfg.IsFederationQuery(segments)
  {
    Join([segments[0], segments[1], "svc", TrimRight(cfg.domain, '.')], ".") + "."
  }

  /** The redirect to the federation, when the cluster's zone and region are known. */
  function Redirect(cfg: Config, segments: seq<string>, zoneRegion: Option<(string, string)>): Result<seq<Record>>
    requires cfg.IsFederationQuery(segments)
  {
    if zoneRegion.None? then Err(NoZoneOrRegion)
    else if !IsDNS1123Subdomain(cfg.federations[segments[2]]) then Err(BadFederationDomain)
    else
      Ok([CName(Join([segments[0], segments[1], segments[2], "svc", zoneRegion.value.0, zoneRegion.value.1,
                      cfg.federations[segments[2]]], ".") + ".")])
  }

  /** Whether a local record proves that its service can answer: a headless record always does, a
      cluster IP only while its service has endpoints. */
  predicate RecordIsLive(rec: Record, byIP: map<string, Service>, endpointsStore: map<string, Object>) {
    rec.host in byIP ==>
      var key := StoreKey(byIP[rec.host].ns, byIP[rec.host].name);
      key in endpointsStore && endpointsStore[key].EndpointsObject? && endpointsStore[key].endpoints.subsets != []
  }

  /** The answer to a federated query: the local service's own name when one of its records is live,
      otherwise the redirect. */
  ghost predicate FederatedAnswer(cfg: Config, s: State, endpointsStore: map<string, Object>, segments: seq<string>,
                                  zoneRegion: Option<(string, string)>, r: Result<seq<Record>>,
                                  local: Result<seq<Record>>, locs: seq<Loc>)
    requires cfg.IsFederationQuery(segments)
  {
    var path := cfg.DomainPath() + ["svc", segments[1], segments[0]];
    && local.Ok? && Lists(s.records, locs, local.value)
    && (forall l :: l in locs <==> l in s.records && Answers(s.records, path, l))
    && r == if exists i :: 0 <= i < |local.value| && RecordIsLive(local.value[i], s.byIP, endpointsStore)
            then Ok([CName(LocalName(cfg, segments))])
            else Redirect(cfg, segments, zoneRegion)
  }

  // ---- The state and the atomic commits that events make to it under the cache lock ----

  datatype State = State(records: Flat, reverse: map<string, Record>, byIP: map<string, Service>)

  datatype Commit =
    | Portal(svc: Service)
    | Headless(svc: Service, subsets: seq<Subset>, podHostnames: map<string, string>)
    | Remove(svc: Service)

  ghost function Apply(cfg: Config, s: State, c: Commit): State {
    var base := cfg.ServicePath(c.svc.ns, c.svc.name);
    match c
    case Portal(svc) =>
      State(Graft(s.records, base, Fill(PortalPuts(cfg, svc))),
            s.reverse[svc.clusterIP := cfg.SkyMsg(cfg.ServiceFQDN(svc), 0)],
            s.byIP[svc.clusterIP := svc])
    case Headless(svc, subsets, podHostnames) =>
      s.(records := Graft(s.records, base, Fill(HeadlessPuts(cfg, svc, subsets, podHostnames))))
    case Remove(svc) =>
      State(Prune(s.records, base), s.reverse - {svc.clusterIP}, s.byIP - {svc.clusterIP})
  }

  ghost function Run(cfg: Config, s: State, commits: seq<Commit>): State {
    if commits == [] then s else Apply(cfg, Run(cfg, s, commits[..|commits| - 1]), commits[|commits| - 1])
  }

  const EMPTY := State(imap[], map[], map[])

  /** An object an informer can deliver; anything but the expected kind is logged and dropped. */
  datatype Object = ServiceObject(service: Service) | EndpointsObject(endpoints: Endpoints) | OtherObject

  /** The key the informer stores use. */
  function StoreKey(ns: string, name: string): string {
    if ns == "" then name else ns + "/" + name
  }

  function HeadlessCommit(svc: Service, e: Endpoints): Option<Commit> {
    if e.podHostnames.None? then None else Some(Headless(svc, e.subsets, e.podHostnames.value))
  }

  /** The commit a new or changed service leads to. */
  function ServiceCommit(obj: Object, endpointsStore: map<string, Object>): Option<Commit> {
    if !obj.ServiceObject? then None
    else if IsServiceIPSet(obj.service) then Some(Portal(obj.service))
    else
      var key := StoreKey(obj.service.ns, obj.service.name);
      if key in endpointsStore && endpointsStore[key].EndpointsObject?
      then HeadlessCommit(obj.service, endpointsStore[key].endpoints) else None
  }

  /** The commit a new or changed endpoints object leads to. */
  function EndpointsCommit(obj: Object, servicesStore: map<string, Object>): Option<Commit> {
    if !obj.EndpointsObject? then None
    else
      var key := StoreKey(obj.endpoints.ns, obj.endpoints.name);
      if key in servicesStore && servicesStore[key].ServiceObject? && !IsServiceIPSet(servicesStore[key].service)
      then HeadlessCommit(servicesStore[key].service, obj.endpoints) else None
  }

  ghost function ApplyOption(cfg: Config, s: State, c: Option<Commit>): State {
    if c.None? then s else Apply(cfg, s, c.value)
  }

  // ---- Building the subtree of a service ----

  method PutOne(cfg: Config, svc: Service, subCache: TreeCache, path: seq<string>, key: string, rec: Record,
                ghost subAt: map<Path, TreeCache>, ghost puts: seq<Put>)
    returns (ghost subAt': map<Path, TreeCache>, ghost puts': seq<Put>)
    requires IsTree(subCache, subAt) && Contents(subAt) == Fill(puts)
    modifies subAt.Values
    ensures IsTree(subCache, subAt') && fresh(subAt'.Values - subAt.Values) && Contents(subAt') == Fill(puts')
    ensures puts' == puts + [PutAt(cfg, svc, path, key, rec)]
  {
    puts' := puts + [PutAt(cfg, svc, path, key, rec)];
    assert puts'[..|puts|] == puts;
    subAt' := subCache.SetEntry(key, rec, cfg.etcdKey(cfg.Fqdn(svc, path + [key])), path, subAt);
  }

  lemma PortPutsNone(cfg: Config, svc: Service, ports: seq<Port>, key: string, labels: seq<string>, puts: seq<Put>)
    ensures puts + PortPuts(cfg, svc, ports[..0], key, labels) == puts
  {
  }

  lemma PortPutsStep(cfg: Config, svc: Service, ports: seq<Port>, key: string, labels: seq<string>, i: nat, puts: seq<Put>)
    requires i < |ports|
    ensures puts + PortPuts(cfg, svc, ports[..i + 1], key, labels)
            == puts + PortPuts(cfg, svc, ports[..i], key, labels)
               + if ports[i].name != "" && ports[i].protocol != ""
                 then [PutAt(cfg, svc, PortPath(ports[i]), key, cfg.SrvRecord(svc, ports[i].port, labels))] else []
  {
    assert ports[..i + 1][..i] == ports[..i];
  }

  method PutPorts(cfg: Config, svc: Service, subCache: TreeCache, ports: seq<Port>, key: string, labels: seq<string>,
                  ghost subAt: map<Path, TreeCache>, ghost puts: seq<Put>)
    returns (ghost subAt': map<Path, TreeCache>, ghost puts': seq<Put>)
    requires IsTree(subCache, subAt) && Contents(subAt) == Fill(puts)
    modifies subAt.Values
    ensures IsTree(subCache, subAt') && fresh(subAt'.Values - subAt.Values) && Contents(subAt') == Fill(puts')
    ensures puts' == puts + PortPuts(cfg, svc, ports, key, labels)
  {
    hide *;
    subAt', puts' := subAt, puts;
    PortPutsNone(cfg, svc, ports, key, labels, puts);
    for i := 0 to |ports|
      invariant IsTree(subCache, subAt') && fresh(subAt'.Values - subAt.Values) && Contents(subAt') == Fill(puts')
      invariant puts' == puts + PortPuts(cfg, svc, ports[..i], key, labels)
    {
      var p := ports[i];
      PortPutsStep(cfg, svc, ports, key, labels, i, puts);
      if p.name != "" && p.protocol != "" {
        subAt', puts' := PutOne(cfg, svc, subCache, PortPath(p), key, cfg.SrvRecord(svc, p.port, labels), subAt', puts');
      }
    }
    assert ports[..|ports|] == ports;
  }

  lemma AddressPutsNone(cfg: Config, svc: Service, addresses: seq<Address>, ports: seq<Port>,
                        podHostnames: map<string, string>, puts: seq<Put>)
    ensures puts + AddressPuts(cfg, svc, addresses[..0], ports, podHostnames) == puts
  {
  }

  lemma AddressPutsStep(cfg: Config, svc: Service, addresses: seq<Address>, ports: seq<Port>,
                        podHostnames: map<string, string>, i: nat, puts: seq<Put>)
    requires i < |addresses|
    ensures var name := EndpointName(cfg, addresses[i], podHostnames);
            puts + AddressPuts(cfg, svc, addresses[..i], ports, podHostnames)
            + [PutAt(cfg, svc, [], name, cfg.SkyMsg(addresses[i].ip, 0))] + PortPuts(cfg, svc, ports, name, [name])
            == puts + AddressPuts(cfg, svc, addresses[..i + 1], ports, podHostnames)
  {
    assert addresses[..i + 1][..i] == addresses[..i];
  }

  method PutAddresses(cfg: Config, svc: Service, subCache: TreeCache, s: Subset, podHostnames: map<string, string>,
                      ghost subAt: map<Path, TreeCache>, ghost puts: seq<Put>)
    returns (ghost subAt': map<Path, TreeCache>, ghost puts': seq<Put>)
    requires IsTree(subCache, subAt) && Contents(subAt) == Fill(puts)
    modifies subAt.Values
    ensures IsTree(subCache, subAt') && fresh(subAt'.Values - subAt.Values) && Contents(subAt') == Fill(puts')
    ensures puts' == puts + AddressPuts(cfg, svc, s.addresses, s.ports, podHostnames)
  {
    hide *;
    subAt', puts' := subAt, puts;
    AddressPutsNone(cfg, svc, s.addresses, s.ports, podHostnames, puts);
    for i := 0 to |s.addresses|
      invariant IsTree(subCache, subAt') && fresh(subAt'.Values - subAt.Values) && Contents(subAt') == Fill(puts')
      invariant puts' == puts + AddressPuts(cfg, svc, s.addresses[..i], s.ports, podHostnames)
    {
      var a := s.addresses[i];
      var name := EndpointName(cfg, a, podHostnames);
      AddressPutsStep(cfg, svc, s.addresses, s.ports, podHostnames, i, puts);
      subAt', puts' := PutOne(cfg, svc, subCache, [], name, cfg.SkyMsg(a.ip, 0), subAt', puts');
      subAt', puts' := PutPorts(cfg, svc, subCache, s.ports, name, [name], subAt', puts');
    }
    assert s.addresses[..|s.addresses|] == s.addresses;
  }

  lemma HeadlessPutsNone(cfg: Config, svc: Service, subsets: seq<Subset>, podHostnames: map<string, string>)
    ensures HeadlessPuts(cfg, svc, subsets[..0], podHostnames) == []
  {
  }

  lemma HeadlessPutsStep(cfg: Config, svc: Service, subsets: seq<Subset>, podHostnames: map<string, string>, i: nat)
    requires i < |subsets|
    ensures HeadlessPuts(cfg, svc, subsets[..i + 1], podHostnames)
            == HeadlessPuts(cfg, svc, subsets[..i], podHostnames)
               + AddressPuts(cfg, svc, subsets[i].addresses, subsets[i].ports, podHostnames)
  {
    assert subsets[..i + 1][..i] == subsets[..i];
  }

  method NewSubCache() returns (subCache: TreeCache, ghost subAt: map<Path, TreeCache>)
    ensures IsTree(subCache, subAt) && fresh(subAt.Values) && Contents(subAt) == Fill([])
  {
    subCache := new TreeCache();
    subAt := map[Root := subCache];
  }

  /** The subtree of a service that has a cluster IP. */
  method BuildPortal(cfg: Config, svc: Service) returns (subCache: TreeCache, ghost subAt: map<Path, TreeCache>)
    ensures IsTree(subCache, subAt) && fresh(subAt.Values) && Contents(subAt) == Fill(PortalPuts(cfg, svc))
  {
    hide IsTree, Contents, Fill, PutAt, PortPuts;
    subCache, subAt := NewSubCache();
    var recordLabel := cfg.LabelOf(svc.clusterIP);
    ghost var puts;
    subAt, puts := PutOne(cfg, svc, subCache, [], recordLabel, cfg.SkyMsg(svc.clusterIP, 0), subAt, []);
    subAt, puts := PutPorts(cfg, svc, subCache, svc.ports, recordLabel, [], subAt, puts);
    assert puts == PortalPuts(cfg, svc);
  }

  /** The server. Every handler reads the stores, builds a subtree and commits it in one step. */
  class KubeDNS {
    const cfg: Config
    var cache: TreeCache
    var reverseRecordMap: map<string, Record>
    var clusterIPServiceMap: map<string, Service>
    var servicesStore: map<string, Object>
    var endpointsStore: map<string, Object>
    ghost var at: map<Path, TreeCache>

    ghost predicate Valid()
      reads this, at.Values
    {
      IsTree(cache, at)
    }

    ghost function Now(): State
      reads this, at.Values
    {
      State(Contents(at), reverseRecordMap, clusterIPServiceMap)
    }

    constructor (cfg: Config)
      ensures Valid() && fresh(at.Values) && this.cfg == cfg && Now() == EMPTY
    {
      hide IsTree, Contents;
      this.cfg := cfg;
      var c, a := NewSubCache();
      cache, at := c, a;
      reverseRecordMap, clusterIPServiceMap := map[], map[];
      servicesStore, endpointsStore := map[], map[];
    }

    method NewPortalService(svc: Service)
      requires Valid()
      modifies this, at.Values
      ensures Valid() && fresh(at.Values - old(at.Values))
      ensures Now() == Apply(cfg, old(Now()), Portal(svc))
      ensures unchanged(`servicesStore) && unchanged(`endpointsStore)
    {
      hide IsTree, Contents, Fill, Graft, PortalPuts;
      hide cfg.ServicePath, cfg.SkyMsg, cfg.ServiceFQDN;
      var subCache, subAt := BuildPortal(cfg, svc);
      Attach(svc, subCache, subAt);
      reverseRecordMap := reverseRecordMap[svc.clusterIP := cfg.SkyMsg(cfg.ServiceFQDN(svc), 0)];
      clusterIPServiceMap := clusterIPServiceMap[svc.clusterIP := svc];
    }

    /** Hangs the finished subtree in at the path of the service. */
    method Attach(svc: Service, subCache: TreeCache, ghost subAt: map<Path, TreeCache>)
      requires Valid() && IsTree(subCache, subAt) && at.Values !! subAt.Values
      modifies this`at, at.Values
      ensures Valid() && fresh(at.Values - old(at.Values) - subAt.Values)
      ensures Contents(at) == Graft(old(Contents(at)), cfg.ServicePath(svc.ns, svc.name), old(Contents(subAt)))
    {
      hide IsTree, Contents, Graft, Walk;
      WalkTwo(cfg.DomainPath(), "svc", svc.ns);
      at := cache.SetSubCache(svc.name, subCache, cfg.DomainPath() + ["svc", svc.ns], at, subAt);
    }

    method GenerateRecordsForHeadlessService(e: Endpoints, svc: Service)
      requires Valid()
      modifies this`at, at.Values
      ensures Valid() && fresh(at.Values - old(at.Values))
      ensures Now() == ApplyOption(cfg, old(Now()), HeadlessCommit(svc, e))
    {
      hide IsTree, Contents, Fill, Graft, HeadlessPuts;
      if e.podHostnames.None? {
        return;
      }
      var subCache, subAt := NewSubCache();
      ghost var puts := [];
      HeadlessPutsNone(cfg, svc, e.subsets, e.podHostnames.value);
      for idx := 0 to |e.subsets|
        invariant Valid() && Now() == old(Now()) && at == old(at)
        invariant IsTree(subCache, subAt) && fresh(subAt.Values) && Contents(subAt) == Fill(puts)
        invariant puts == HeadlessPuts(cfg, svc, e.subsets[..idx], e.podHostnames.value)
      {
        HeadlessPutsStep(cfg, svc, e.subsets, e.podHostnames.value, idx);
        subAt, puts := PutAddresses(cfg, svc, subCache, e.subsets[idx], e.podHostnames.value, subAt, puts);
      }
      assert e.subsets[..|e.subsets|] == e.subsets;
      Attach(svc, subCache, subAt);
    }

    method NewService(obj: Object)
      requires Valid()
      modifies this, at.Values
      ensures Valid() && fresh(at.Values - old(at.Values))
      ensures Now() == ApplyOption(cfg, old(Now()), ServiceCommit(obj, old(endpointsStore)))
      ensures unchanged(`servicesStore) && unchanged(`endpointsStore)
    {
      if !obj.ServiceObject? {
        return;
      }
      if IsServiceIPSet(obj.service) {
        NewPortalService(obj.service);
        return;
      }
      var key := StoreKey(obj.service.ns, obj.service.name);
      if key in endpointsStore && endpointsStore[key].EndpointsObject? {
        GenerateRecordsForHeadlessService(endpointsStore[key].endpoints, obj.service);
      }
    }

    method HandleEndpointAdd(obj: Object)
      requires Valid()
      modifies this`at, at.Values
      ensures Valid() && fresh(at.Values - old(at.Values))
      ensures Now() == ApplyOption(cfg, old(Now()), EndpointsCommit(obj, servicesStore))
    {
      if !obj.EndpointsObject? {
        return;
      }
      var key := StoreKey(obj.endpoints.ns, obj.endpoints.name);
      if key in servicesStore && servicesStore[key].ServiceObject? && !IsServiceIPSet(servicesStore[key].service) {
        GenerateRecordsForHeadlessService(obj.endpoints, servicesStore[key].service);
      }
    }

    method RemoveService(obj: Object)
      requires Valid()
      modifies this, at.Values
      ensures Valid() && at.Values <= old(at.Values)
      ensures Now() == if obj.ServiceObject? then Apply(cfg, old(Now()), Remove(obj.service)) else old(Now())
      ensures unchanged(`servicesStore) && unchanged(`endpointsStore)
    {
      hide IsTree, Contents, Prune, Walk;
      if obj.ServiceObject? {
        var s := obj.service;
        var subCachePath := cfg.DomainPath() + ["svc", s.ns, s.name];
        WalkTwo(cfg.DomainPath(), "svc", s.ns);
        WalkOne(cfg.DomainPath() + ["svc", s.ns], s.name);
        assert subCachePath == cfg.DomainPath() + ["svc", s.ns] + [s.name];
        var found, at' := cache.DeletePath(subCachePath, at);
        at := at';
        reverseRecordMap := reverseRecordMap - {s.clusterIP};
        clusterIPServiceMap := clusterIPServiceMap - {s.clusterIP};
      }
    }

    /** The reversed form of an address finds the record stored under that address, and no other name finds any. */
    method ReverseRecord(name: string) returns (r: Result<Record>)
      ensures r == ReverseAnswer(reverseRecordMap, name)
      ensures forall ip :: name == ReverseName(ip) ==>
                r == if ip in reverseRecordMap then Ok(reverseRecordMap[ip]) else Err(NoReverseRecord)
      ensures r != Err(NotAReverseName) ==> exists ip :: name == ReverseName(ip)
    {
      hide ReverseName, ExtractIP;
      forall ip | name == ReverseName(ip) ensures ExtractIP(name) == Some(ip) {
        ExtractIPUndoesReversal(ip);
      }
      ReversalUndoesExtractIP(name);
      var portalIP := ExtractIP(name);
      if portalIP.None? {
        return Err(NotAReverseName);
      }
      if portalIP.value in reverseRecordMap {
        return Ok(reverseRecordMap[portalIP.value]);
      }
      return Err(NoReverseRecord);
    }

    method GetRecordsForPath(path: seq<string>, exact: bool) returns (r: Result<seq<Record>>, ghost locs: seq<Loc>)
      requires Valid() && path != []
      ensures LocalAnswer(cfg, Contents(at), path, exact, r, locs)
    {
      locs := [];
      if cfg.IsPodRecord(path) {
        var ip := cfg.PodIP(path);
        return if ip.Ok? then Ok([cfg.SkyMsg(ip.value, 0)]) else Err(ip.error), [];
      }
      if exact {
        var key := Last(path);
        if key == "" {
          return Ok([]), [];
        }
        var record := cache.GetEntry(key, Front(path), at);
        return if record.Some? then Ok([record.value]) else Err(KeyNotFound), [];
      }
      var records;
      records, locs := cache.GetValuesForPathWithWildcards(path, at);
      return Ok(records), locs;
    }

    /** Whether some record of a local answer is live. */
    method AnyLive(records: seq<Record>) returns (valid: bool)
      ensures valid <==> exists i :: 0 <= i < |records| && RecordIsLive(records[i], clusterIPServiceMap, endpointsStore)
    {
      for i := 0 to |records|
        invariant forall j :: 0 <= j < i ==> !RecordIsLive(records[j], clusterIPServiceMap, endpointsStore)
      {
        if records[i].host !in clusterIPServiceMap {
          return true;
        }
        var svc := clusterIPServiceMap[records[i].host];
        var key := StoreKey(svc.ns, svc.name);
        if key in endpointsStore && endpointsStore[key].EndpointsObject? && |endpointsStore[key].endpoints.subsets| > 0 {
          return true;
        }
      }
      return false;
    }

    /** Answers a name. `local` is the answer found for the local service and `locs` its places.
        `zoneRegion` is what the node lookup finds. */
    method Records(name: string, exact: bool, zoneRegion: Option<(string, string)>)
      returns (r: Result<seq<Record>>, ghost local: Result<seq<Record>>, ghost locs: seq<Loc>)
      requires Valid()
      ensures exact || !cfg.IsFederationQuery(Segments(name)) ==>
                && LocalAnswer(cfg, Contents(at), Reverse(Segments(name)), exact, local, locs)
                && r == if local.Ok? && local.value == [] then Err(KeyNotFound) else local
      ensures !exact && cfg.IsFederationQuery(Segments(name)) ==>
                FederatedAnswer(cfg, Now(), endpointsStore, Segments(name), zoneRegion, r, local, locs)
    {
      hide LocalAnswer, Segments, IsTree, FederatedAnswer, Contents, Reverse;
      hide cfg.IsFederationQuery;
      var segments := ToArray(Segments(name));
      assert segments[..segments.Length] == segments[..];
      if exact || !cfg.IsFederationQuery(segments[..]) {
        ReverseArray(segments, segments.Length);
        assert segments[..segments.Length] == segments[..];
        r, locs := GetRecordsForPath(segments[..], exact);
        local := r;
        if r.Ok? && r.value == [] {
          r := Err(KeyNotFound);
        }
        return;
      }
      SegmentsEndInALabel(cfg, name);
      ghost var f := Contents(at);
      r, local, locs := FederatedRecords(segments, zoneRegion);
      assert Contents(at) == f;
    }

    /** A query for a federated service: the local service first, then the redirect. */
    method FederatedRecords(segments: array<string>, zoneRegion: Option<(string, string)>)
      returns (r: Result<seq<Record>>, ghost local: Result<seq<Record>>, ghost locs: seq<Loc>)
      requires Valid() && cfg.IsFederationQuery(segments[..]) && segments[segments.Length - 1] != ""
      modifies segments
      ensures FederatedAnswer(cfg, old(State(Contents(at), reverseRecordMap, clusterIPServiceMap)), endpointsStore,
                              old(segments[..]), zoneRegion, r, local, locs)
    {
      hide *;
      ghost var was, f := segments[..], Contents(at);
      FederatedPath(cfg, was);
      FederatedLocalName(cfg, was);
      var federationSegments, path := TakeFederationOut(segments);
      assert Contents(at) == f;
      r, locs := GetRecordsForPath(path, false);
      local := r;
      WildcardAnswersAreLists(cfg, f, path, local, locs);
      var valid := AnyLive(r.value);
      if valid {
        ReverseReverse(was[..2] + was[3..]);
        var name := NameOfPath(segments);
        r := Ok([CName(FullyQualified(name))]);
      } else {
        ReverseReverse(was);
        r := FederationRecords(federationSegments, zoneRegion);
      }
      AssembleFederatedAnswer(cfg, State(f, reverseRecordMap, clusterIPServiceMap), endpointsStore, was, zoneRegion,
                              valid, r, local, locs);
    }

    method FederationRecords(queryPath: array<string>, zoneRegion: Option<(string, string)>) returns (r: Result<seq<Record>>)
      modifies queryPath
      ensures var segments := Reverse(old(queryPath[..]));
              r == if cfg.IsFederationQuery(segments) then Redirect(cfg, segments, zoneRegion) else Err(KeyNotFound)
    {
      hide cfg.IsFederationQuery, cfg.DomainPath, IsDNS1123Subdomain, FullyQualified, Join;
      assert queryPath[..queryPath.Length] == queryPath[..];
      ReverseArray(queryPath, queryPath.Length);
      var path := queryPath[..queryPath.Length];
      if !cfg.IsFederationQuery(path) {
        return Err(KeyNotFound);
      }
      RedirectName(cfg, path, zoneRegion);
      path := path[..|path| - |cfg.DomainPath()|];
      if zoneRegion.None? {
        return Err(NoZoneOrRegion);
      }
      path := path + [zoneRegion.value.0, zoneRegion.value.1];
      var domain := cfg.federations[path[2]];
      if !IsDNS1123Subdomain(domain) {
        return Err(BadFederationDomain);
      }
      var name := FullyQualified(Join(path + [domain], "."));
      return Ok([CName(name)]);
    }
  }

  lemma WildcardAnswersAreLists(cfg: Config, f: Flat, path: seq<string>, local: Result<seq<Record>>, locs: seq<Loc>)
    requires path != [] && LocalAnswer(cfg, f, path, false, local, locs) && !cfg.IsPodRecord(path)
    ensures local.Ok? && Lists(f, locs, local.value) && forall l :: l in locs <==> l in f && Answers(f, path, l)
  {
  }

  lemma AssembleFederatedAnswer(cfg: Config, s: State, endpointsStore: map<string, Object>, segments: seq<string>,
                                zoneRegion: Option<(string, string)>, valid: bool, r: Result<seq<Record>>,
                                local: Result<seq<Record>>, locs: seq<Loc>)
    requires cfg.IsFederationQuery(segments)
    requires local.Ok? && Lists(s.records, locs, local.value)
    requires forall l :: l in locs <==>
               l in s.records && Answers(s.records, cfg.DomainPath() + ["svc", segments[1], segments[0]], l)
    requires valid <==> exists i :: 0 <= i < |local.value| && RecordIsLive(local.value[i], s.byIP, endpointsStore)
    requires r == if valid then Ok([CName(LocalName(cfg, segments))]) else Redirect(cfg, segments, zoneRegion)
    ensures FederatedAnswer(cfg, s, endpointsStore, segments, zoneRegion, r, local, locs)
  {
  }

  function FullyQualified(name: string): string {
    if HasSuffix(name, ".") then name else name + "."
  }

  /** The local lookup of a federated query is the plain path of the service, never a pod record. */
  lemma FederatedPath(cfg: Config, segments: seq<string>)
    requires cfg.IsFederationQuery(segments)
    ensures |segments| >= 4 && segments[4..] == Split(TrimRight(cfg.domain, '.'), ".")
    ensures var path := Reverse(segments[..2] + segments[3..]);
            && path == cfg.DomainPath() + ["svc", segments[1], segments[0]]
            && path != [] && !cfg.IsPodRecord(path)
  {
    hide IsDNS952Label, IsDNS1123Label, TrimRight, Split;
    var labels := Split(TrimRight(cfg.domain, '.'), ".");
    var path := Reverse(segments[..2] + segments[3..]);
    var dp := cfg.DomainPath();
    forall j | 0 <= j < |labels| ensures segments[4 + j] == labels[j] {
      assert dp[|dp| - 1 - j] == segments[|segments| - (|dp| - 1 - j) - 1];
    }
    assert segments[4..] == labels;
    assert path == cfg.DomainPath() + ["svc", segments[1], segments[0]];
  }

  /** The name of that lookup, which gets exactly one final dot. */
  lemma FederatedLocalName(cfg: Config, segments: seq<string>)
    requires cfg.IsFederationQuery(segments) && segments[|segments| - 1] != ""
    ensures FullyQualified(Join(segments[..2] + segments[3..], ".")) == LocalName(cfg, segments)
  {
    hide IsDNS952Label, IsDNS1123Label, TrimRight, Split, Join;
    FederatedPath(cfg, segments);
    var front, domain := [segments[0], segments[1], "svc"], TrimRight(cfg.domain, '.');
    assert segments[..2] + segments[3..] == front + segments[4..];
    JoinAppend(front, segments[4..], ".");
    JoinAppend(front, [domain], ".");
    assert front + [domain] == [segments[0], segments[1], "svc", domain];
    assert Join([domain], ".") == domain by { JoinOne(domain, "."); }
    JoinLast(front + segments[4..], ".");
    SplitFree(domain, '.');
    assert '.' !in segments[4..][|segments| - 5];
  }

  lemma SubdomainsEndInALetter(path: seq<string>, domain: string)
    requires IsDNS1123Subdomain(domain)
    ensures FullyQualified(Join(path + [domain], ".")) == Join(path + [domain], ".") + "."
  {
    hide Join;
    var parts := Split(domain, ".");
    assert LabelShape(Last(parts)) by { assert Last(parts) in parts; }
    JoinLast(parts, ".");
    JoinLast(path + [domain], ".");
  }

  /** What is left of a federated query without the local domain, as the redirect spells it. */
  lemma RedirectName(cfg: Config, segments: seq<string>, zoneRegion: Option<(string, string)>)
    requires cfg.IsFederationQuery(segments)
    ensures |segments| == 4 + |cfg.DomainPath()| && segments[2] in cfg.federations
    ensures zoneRegion.Some? && IsDNS1123Subdomain(cfg.federations[segments[2]]) ==>
              var path := segments[..|segments| - |cfg.DomainPath()|] + [zoneRegion.value.0, zoneRegion.value.1];
              Redirect(cfg, segments, zoneRegion)
              == Ok([CName(FullyQualified(Join(path + [cfg.federations[segments[2]]], ".")))])
  {
    hide Join, FullyQualified, LabelShape, IsDNS1123Subdomain;
    hide cfg.DomainPath;
    if zoneRegion.Some? && IsDNS1123Subdomain(cfg.federations[segments[2]]) {
      var domain := cfg.federations[segments[2]];
      var path := segments[..|segments| - |cfg.DomainPath()|] + [zoneRegion.value.0, zoneRegion.value.1];
      SubdomainsEndInALetter(path, domain);
      assert path + [domain]
          == [segments[0], segments[1], segments[2], "svc", zoneRegion.value.0, zoneRegion.value.1, domain];
    }
  }

  lemma SegmentsEndInALabel(cfg: Config, name: string)
    requires cfg.IsFederationQuery(Segments(name))
    ensures Segments(name)[|Segments(name)| - 1] != ""
  {
    hide IsDNS952Label, IsDNS1123Label, TrimRight, Split, Join, cfg.DomainPath;
    var s, parts := TrimRight(name, '.'), Segments(name);
    JoinAppend(Front(parts), [Last(parts)], ".");
    JoinOne(Last(parts), ".");
    assert parts == Front(parts) + [Last(parts)];
    assert s == Join(Front(parts), ".") + "." + Last(parts);
  }

  // ---- Slices ----

  /** Reverses the first `n` elements in place. */
  method ReverseArray(arr: array<string>, n: nat)
    requires n <= arr.Length
    modifies arr
    ensures arr[..n] == Reverse(old(arr[..n])) && arr[n..] == old(arr[n..])
  {
    for i := 0 to n / 2
      invariant forall k :: 0 <= k < i ==> arr[k] == old(arr[n - 1 - k]) && arr[n - 1 - k] == old(arr[k])
      invariant forall k :: i <= k < n - i ==> arr[k] == old(arr[k])
      invariant forall k :: n <= k < arr.Length ==> arr[k] == old(arr[k])
    {
      var j := n - i - 1;
      arr[i], arr[j] := arr[j], arr[i];
    }
  }

  /** Closes the gap left by removing element 2, in place. */
  method DropThird(arr: array<string>)
    requires arr.Length >= 3
    modifies arr
    ensures arr[..arr.Length - 1] == old(arr[..2] + arr[3..])
  {
    forall i | 2 <= i < arr.Length - 1 {
      arr[i] := arr[i + 1];
    }
  }

  /** Keeps a reversed copy of the whole query, and turns the query itself into the path of the local
      service. */
  method TakeFederationOut(segments: array<string>) returns (federationSegments: array<string>, path: seq<string>)
    requires segments.Length >= 4
    modifies segments
    ensures fresh(federationSegments) && federationSegments[..] == Reverse(old(segments[..]))
    ensures path == Reverse(old(segments[..2] + segments[3..])) && segments[..segments.Length - 1] == path
  {
    hide Reverse;
    ghost var was := segments[..];
    federationSegments := ToArray(segments[..]);
    assert federationSegments[..federationSegments.Length] == was;
    ReverseArray(federationSegments, federationSegments.Length);
    assert federationSegments[..federationSegments.Length] == federationSegments[..];
    DropThird(segments);
    ReverseArray(segments, segments.Length - 1);
    path := segments[..segments.Length - 1];
  }

  /** The name spelled by the path held in all but the last element. */
  method NameOfPath(segments: array<string>) returns (name: string)
    requires segments.Length >= 1
    modifies segments
    ensures name == Join(Reverse(old(segments[..segments.Length - 1])), ".")
  {
    ReverseArray(segments, segments.Length - 1);
    name := Join(segments[..segments.Length - 1], ".");
  }

  method ToArray(s: seq<string>) returns (arr: array<string>)
    ensures fresh(arr) && arr[..] == s
  {
    arr := new string[|s|](i requires 0 <= i < |s| => s[i]);
  }

  lemma WalkOne(labels: seq<string>, a: string)
    ensures Walk(labels + [a]) == Sub(Walk(labels), a)
  {
    assert Front(labels + [a]) == labels;
  }

  lemma WalkTwo(labels: seq<string>, a: string, b: string)
    ensures Walk(labels + [a, b]) == Sub(Sub(Walk(labels), a), b)
  {
    WalkOne(labels, a);
    WalkOne(labels + [a], b);
    assert labels + [a, b] == labels + [a] + [b];
  }
}
