/** The records of single endpoints and ports: under which names they are found, and what they say in full. */
module KubeDnsEndpoints {
  import opened Text
  import opened Wrappers
  import opened TreeCaches
  import opened KubeDnsModel
  import opened KubeDnsRuns
  import opened KubeDnsAnswers
  import opened KubeDnsQueries

  // ---- What a subtree holds ----

  function PlaceOf(put: Put): Loc { Loc(Walk(put.path), put.key) }

  /** A subtree holds, at each place, the last record that was put there. */
  lemma {:induction false} FillMeans(puts: seq<Put>, l: Loc)
    ensures l in Fill(puts) <==> exists put :: put in puts && PlaceOf(put) == l
    ensures l in Fill(puts) ==> exists put :: put in puts && PlaceOf(put) == l && Fill(puts)[l] == put.rec
  {
    hide Walk;
    if puts != [] {
      var front, last := puts[..|puts| - 1], puts[|puts| - 1];
      FillMeans(front, l);
      assert forall put :: put in puts <==> put in front || put == last;
      if PlaceOf(last) == l {
        assert last in puts && Fill(puts)[l] == last.rec;
      } else if l in Fill(front) {
        var put :| put in front && PlaceOf(put) == l && Fill(front)[l] == put.rec;
        assert put in puts;
      }
    }
  }

  function PortPut(cfg: Config, svc: Service, p: Port, key: string, labels: seq<string>): Put {
    PutAt(cfg, svc, PortPath(p), key, cfg.SrvRecord(svc, p.port, labels))
  }

  lemma {:induction false} PortPutsMean(cfg: Config, svc: Service, ports: seq<Port>, key: string, labels: seq<string>, put: Put)
    ensures put in PortPuts(cfg, svc, ports, key, labels) <==>
              exists p :: p in ports && Named(p) && put == PortPut(cfg, svc, p, key, labels)
  {
    hide PortPut;
    if ports != [] {
      var front, last := ports[..|ports| - 1], ports[|ports| - 1];
      PortPutsMean(cfg, svc, front, key, labels, put);
      assert forall p :: p in ports <==> p in front || p == last;
      PortPutIs(cfg, svc, last, key, labels);
    }
  }

  lemma PortPutIs(cfg: Config, svc: Service, p: Port, key: string, labels: seq<string>)
    ensures PortPut(cfg, svc, p, key, labels) == PutAt(cfg, svc, PortPath(p), key, cfg.SrvRecord(svc, p.port, labels))
  {
  }

  /** `put` is a record of this endpoint: its own, or one for a named port. */
  ghost predicate IsPutFor(cfg: Config, svc: Service, a: Address, ports: seq<Port>, podHostnames: map<string, string>, put: Put) {
    var name := EndpointName(cfg, a, podHostnames);
    put == RootPut(cfg, svc, a, podHostnames)
    || exists p :: p in ports && Named(p) && put == PortPut(cfg, svc, p, name, [name])
  }

  lemma {:induction false} AddressPutsMean(cfg: Config, svc: Service, addresses: seq<Address>, ports: seq<Port>,
                                           podHostnames: map<string, string>, put: Put)
    ensures put in AddressPuts(cfg, svc, addresses, ports, podHostnames) <==>
              exists a :: a in addresses && IsPutFor(cfg, svc, a, ports, podHostnames, put)
  {
    hide PortPuts, PortPut, EndpointName, PutAt;
    if addresses != [] {
      var front, last := addresses[..|addresses| - 1], addresses[|addresses| - 1];
      var name := EndpointName(cfg, last, podHostnames);
      AddressPutsMean(cfg, svc, front, ports, podHostnames, put);
      PortPutsMean(cfg, svc, ports, name, [name], put);
      assert forall a :: a in addresses <==> a in front || a == last;
      var before, own := AddressPuts(cfg, svc, front, ports, podHostnames), RootPut(cfg, svc, last, podHostnames);
      assert AddressPuts(cfg, svc, addresses, ports, podHostnames) == before + [own] + PortPuts(cfg, svc, ports, name, [name]);
      assert IsPutFor(cfg, svc, last, ports, podHostnames, put)
        <==> put == own || put in PortPuts(cfg, svc, ports, name, [name]);
    }
  }

  lemma {:induction false} HeadlessPutsMean(cfg: Config, svc: Service, subsets: seq<Subset>, podHostnames: map<string, string>,
                                            put: Put)
    ensures put in HeadlessPuts(cfg, svc, subsets, podHostnames) <==>
              exists s, a :: s in subsets && a in s.addresses && IsPutFor(cfg, svc, a, s.ports, podHostnames, put)
  {
    hide AddressPuts, IsPutFor;
    if subsets != [] {
      var front, last := subsets[..|subsets| - 1], subsets[|subsets| - 1];
      HeadlessPutsMean(cfg, svc, front, podHostnames, put);
      AddressPutsMean(cfg, svc, last.addresses, last.ports, podHostnames, put);
      assert forall s :: s in subsets <==> s in front || s == last;
    }
  }

  // ---- Ports of headless services ----

  /** An endpoint called `name` with a port on the path of `p` and this number. */
  ghost predicate Serves(cfg: Config, c: Commit, p: Port, name: string, number: int)
    requires c.Headless?
  {
    exists s, a, q :: s in c.subsets && a in s.addresses && q in s.ports
      && Named(q) && PortPath(q) == PortPath(p) && EndpointName(cfg, a, c.podHostnames) == name && q.port == number
  }

  /** Two labels down there is a record for each endpoint and port, with the endpoint's own name as its host; one label
      down there is none. */
  lemma HeadlessPortEntry(cfg: Config, before: seq<Commit>, c: Commit, after: seq<Commit>, p: Port, name: string)
    requires c.Headless? && NoneFor(after, c.svc)
    ensures var f, base := After(cfg, before, c, after), cfg.ServicePath(c.svc.ns, c.svc.name);
            var l := Loc(PortNode(base, p), name);
            && (l in f <==> exists number :: Serves(cfg, c, p, name, number))
            && (l in f ==> Serves(cfg, c, p, name, f[l].port) && f[l].host == name + "." + cfg.ServiceFQDN(c.svc))
            && Loc(Sub(base, PortPath(p)[0]), name) !in f
  {
    hide After, Fill, HeadlessPuts, NoneFor, EndpointName, Walk, IsPutFor, PortPath, cfg.ServicePath, cfg.ServiceFQDN;
    var puts := HeadlessPuts(cfg, c.svc, c.subsets, c.podHostnames);
    SamePortPath(p, p);
    var two, one := Sub(Sub(Root, PortPath(p)[0]), PortPath(p)[1]), Sub(Root, PortPath(p)[0]);
    SubtreeIsKept(cfg, before, c, after, two, name);
    SubtreeIsKept(cfg, before, c, after, one, name);
    FillMeans(puts, Loc(two, name));
    FillMeans(puts, Loc(one, name));
    forall put | put in puts
      ensures PlaceOf(put) != Loc(one, name)
      ensures PlaceOf(put) == Loc(two, name) ==>
                Serves(cfg, c, p, name, put.rec.port) && put.rec.host == name + "." + cfg.ServiceFQDN(c.svc)
    {
      PutOfEndpoint(cfg, c, p, name, put);
    }
    if number :| Serves(cfg, c, p, name, number) {
      var put := PutOfPort(cfg, c, p, name, number);
      assert put in puts && PlaceOf(put) == Loc(two, name);
    }
  }

  lemma PutOfEndpoint(cfg: Config, c: Commit, p: Port, name: string, put: Put)
    requires c.Headless? && put in HeadlessPuts(cfg, c.svc, c.subsets, c.podHostnames)
    ensures PlaceOf(put) != Loc(Sub(Root, PortPath(p)[0]), name)
    ensures PlaceOf(put) == Loc(Sub(Sub(Root, PortPath(p)[0]), PortPath(p)[1]), name) ==>
              Serves(cfg, c, p, name, put.rec.port) && put.rec.host == name + "." + cfg.ServiceFQDN(c.svc)
  {
    hide HeadlessPuts, EndpointName, PortPath, cfg.ServiceFQDN, IsPutFor, Walk;
    SamePortPath(p, p);
    HeadlessPutsMean(cfg, c.svc, c.subsets, c.podHostnames, put);
    var s, a :| s in c.subsets && a in s.addresses && IsPutFor(cfg, c.svc, a, s.ports, c.podHostnames, put);
    PutPlaces(cfg, c.svc, a, s.ports, c.podHostnames, put, p);
    if PlaceOf(put) == Loc(Sub(Sub(Root, PortPath(p)[0]), PortPath(p)[1]), name) {
      var q :| q in s.ports && Named(q) && PortPath(q) == PortPath(p) && put.rec.port == q.port;
      assert Serves(cfg, c, p, name, q.port);
    }
  }

  lemma PutPlaces(cfg: Config, svc: Service, a: Address, ports: seq<Port>, podHostnames: map<string, string>, put: Put, p: Port)
    requires IsPutFor(cfg, svc, a, ports, podHostnames, put)
    ensures var name := EndpointName(cfg, a, podHostnames);
            && put.key == name && Walk(put.path) != Sub(Root, PortPath(p)[0])
            && (Walk(put.path) == Sub(Sub(Root, PortPath(p)[0]), PortPath(p)[1]) ==>
                  && (exists q :: q in ports && Named(q) && PortPath(q) == PortPath(p) && put.rec.port == q.port)
                  && put.rec.host == name + "." + cfg.ServiceFQDN(svc))
  {
    hide EndpointName, cfg.ServiceFQDN, Walk, PortPath;
    PortPathWalk(p);
    var name := EndpointName(cfg, a, podHostnames);
    if put == RootPut(cfg, svc, a, podHostnames) {
      RootPath([]);
    } else {
      var q :| q in ports && Named(q) && put == PortPut(cfg, svc, q, name, [name]);
      PortPathWalk(q);
      SamePortPath(p, q);
      OneLabel(name, cfg.ServiceFQDN(svc));
    }
  }

  lemma OneLabel(name: string, host: string)
    ensures PrefixLabels([name], host) == name + "." + host
  {
  }

  lemma SamePortPath(p: Port, q: Port)
    ensures |PortPath(p)| == 2
    ensures PortPath(p)[0] == PortPath(q)[0] && PortPath(p)[1] == PortPath(q)[1] ==> PortPath(p) == PortPath(q)
  {
  }

  lemma PutOfPort(cfg: Config, c: Commit, p: Port, name: string, number: int) returns (put: Put)
    requires c.Headless? && Serves(cfg, c, p, name, number)
    ensures put in HeadlessPuts(cfg, c.svc, c.subsets, c.podHostnames)
    ensures PlaceOf(put) == Loc(Sub(Sub(Root, PortPath(p)[0]), PortPath(p)[1]), name)
  {
    hide HeadlessPuts, EndpointName, PortPath, Walk, cfg.SrvRecord;
    var s, a, q :| s in c.subsets && a in s.addresses && q in s.ports
      && Named(q) && PortPath(q) == PortPath(p) && EndpointName(cfg, a, c.podHostnames) == name && q.port == number;
    put := PortPut(cfg, c.svc, q, name, [name]);
    assert IsPutFor(cfg, c.svc, a, s.ports, c.podHostnames, put);
    HeadlessPutsMean(cfg, c.svc, c.subsets, c.podHostnames, put);
    PortPathWalk(p);
    PutKeepsPath(cfg, c.svc, PortPath(q), name, cfg.SrvRecord(c.svc, q.port, [name]));
  }

  /** A query for the name of a port of a headless service is not federated, and returns one record for each endpoint
      name that serves such a port: the host is the endpoint's own name, and the number is one that it serves. */
  lemma HeadlessPortQueryLists(cfg: Config, before: seq<Commit>, c: Commit, after: seq<Commit>, p: Port,
                               local: Result<seq<Record>>, locs: seq<Loc>)
    requires c.Headless? && NoneFor(after, c.svc) && Plain(NamePath(cfg, c.svc)) && TrimRight(cfg.domain, '.') != ""
    requires '.' !in c.svc.name && '.' !in c.svc.ns && '.' !in p.name && '.' !in PortPath(p)[0]
    requires LocalAnswer(cfg, After(cfg, before, c, after), Reverse(Segments(PortName(cfg, c.svc, p))), false, local, locs)
    ensures !cfg.IsFederationQuery(Segments(PortName(cfg, c.svc, p)))
    ensures local.Ok? && Lists(After(cfg, before, c, after), locs, local.value)
    ensures forall l :: l in locs <==>
              && l.path == PortNode(cfg.ServicePath(c.svc.ns, c.svc.name), p)
              && exists number :: Serves(cfg, c, p, l.key, number)
    ensures forall i :: 0 <= i < |local.value| ==>
              && local.value[i].host == locs[i].key + "." + cfg.ServiceFQDN(c.svc)
              && Serves(cfg, c, p, locs[i].key, local.value[i].port)
  {
    hide After, Answers, Segments, NoneFor, Serves, PortName, Plain, TrimRight, NamePath, PortPath, PortNode, cfg.ServicePath,
      cfg.ServiceFQDN, cfg.DomainPath;
    hide cfg.IsPodRecord;
    var f := After(cfg, before, c, after);
    PortNameLeadsToPath(cfg, c.svc, p);
    PortNamesAreNotPods(cfg, c.svc, p);
    forall l ensures l in locs <==>
                       && l.path == PortNode(cfg.ServicePath(c.svc.ns, c.svc.name), p)
                       && exists number :: Serves(cfg, c, p, l.key, number)
    {
      HeadlessPortPlace(cfg, before, c, after, p, l);
    }
    forall i | 0 <= i < |local.value|
      ensures local.value[i].host == locs[i].key + "." + cfg.ServiceFQDN(c.svc)
      ensures Serves(cfg, c, p, locs[i].key, local.value[i].port)
    {
      assert locs[i] in locs;
      HeadlessPortEntry(cfg, before, c, after, p, locs[i].key);
    }
  }

  lemma HeadlessPortPlace(cfg: Config, before: seq<Commit>, c: Commit, after: seq<Commit>, p: Port, l: Loc)
    requires c.Headless? && NoneFor(after, c.svc) && Plain(NamePath(cfg, c.svc))
    ensures var f := After(cfg, before, c, after);
            l in f && Answers(f, PortNamePath(cfg, c.svc, p), l) <==>
              && l.path == PortNode(cfg.ServicePath(c.svc.ns, c.svc.name), p)
              && exists number :: Serves(cfg, c, p, l.key, number)
  {
    hide After, Answers, NoneFor, Serves, Plain, NamePath, cfg.ServicePath, cfg.ServiceFQDN;
    var f, base := After(cfg, before, c, after), cfg.ServicePath(c.svc.ns, c.svc.name);
    PortNameAsks(cfg, f, c.svc, p, l);
    HeadlessPortEntry(cfg, before, c, after, p, l.key);
    HeadlessPortEntry(cfg, before, c, after, p, PortPath(p)[1]);
  }

  // ---- Names of endpoints ----

  function EndpointFQDN(cfg: Config, svc: Service, name: string): string { name + "." + cfg.ServiceFQDN(svc) }

  lemma EndpointText(cfg: Config, svc: Service, name: string)
    ensures EndpointFQDN(cfg, svc, name) == FederatedName(cfg, Service(svc.name, name, "", []), svc.ns)
  {
    hide Join;
    var rest := [svc.name, svc.ns, "svc"];
    JoinAppend([name], rest, ".");
    JoinOne(name, ".");
    JoinAppend(rest, [cfg.domain], ".");
    JoinOne(cfg.domain, ".");
    assert [name] + rest == [name, svc.name, svc.ns, "svc"] && rest + [cfg.domain] == [svc.name, svc.ns, "svc", cfg.domain];
  }

  /** The name of an endpoint is read as a federated query for a service of that name exactly when the namespace of its
      own service is called like a federation, and all labels are valid. */
  lemma EndpointNameIsFederatedIff(cfg: Config, svc: Service, name: string)
    requires '.' !in name && '.' !in svc.name && '.' !in svc.ns && TrimRight(cfg.domain, '.') != ""
    ensures cfg.IsFederationQuery(Segments(EndpointFQDN(cfg, svc, name))) <==>
              && IsDNS952Label(name) && IsDNS1123Label(svc.name) && IsDNS1123Label(svc.ns) && svc.ns in cfg.federations
  {
    hide EndpointFQDN, FederatedName, Segments, IsDNS952Label, IsDNS1123Label, TrimRight;
    hide cfg.IsFederationQuery;
    EndpointText(cfg, svc, name);
    FederatedNameIff(cfg, Service(svc.name, name, "", []), svc.ns);
  }

  lemma EndpointPath(cfg: Config, svc: Service, name: string)
    requires '.' !in name && '.' !in svc.name && '.' !in svc.ns && TrimRight(cfg.domain, '.') != ""
    ensures Reverse(Segments(EndpointFQDN(cfg, svc, name))) == NamePath(cfg, svc) + [name]
  {
    hide EndpointFQDN, FederatedName, Segments, TrimRight, cfg.DomainPath;
    EndpointText(cfg, svc, name);
    FederatedSegments(cfg, Service(svc.name, name, "", []), svc.ns);
    ReverseReverse(cfg.DomainPath());
    assert Reverse([name, svc.name, svc.ns, "svc"] + Reverse(cfg.DomainPath()))
        == cfg.DomainPath() + ["svc", svc.ns, svc.name] + [name];
  }

  /** Where a node has an entry of that name, it alone answers. */
  lemma EntryAnswersAlone(cfg: Config, f: Flat, svc: Service, name: string)
    requires Plain(NamePath(cfg, svc)) && name != "*" && Loc(cfg.ServicePath(svc.ns, svc.name), name) in f
    ensures OnlyAnswer(f, NamePath(cfg, svc) + [name], Loc(cfg.ServicePath(svc.ns, svc.name), name))
  {
    hide Walk, StemMatch, NamePath, Plain, cfg.ServicePath;
    var q, l := NamePath(cfg, svc) + [name], Loc(cfg.ServicePath(svc.ns, svc.name), name);
    assert Front(q) == NamePath(cfg, svc) && Last(q) == name;
    ServiceNode(cfg, svc);
    forall m | m in f ensures Answers(f, q, m) <==> m == l {
      PlainStem(NamePath(cfg, svc), m.path);
      if m.path.Sub? { PlainStem(NamePath(cfg, svc), m.path.up); }
    }
  }

  /** How an endpoint is called that says so itself, or of whom the service's annotation says so. */
  predicate IsCalled(c: Commit, a: Address, name: string)
    requires c.Headless?
  {
    if a.hostname != "" then name == a.hostname
    else a.ip in c.podHostnames && IsDNS1123Label(c.podHostnames[a.ip]) && name == c.podHostnames[a.ip]
  }

  /** A query for such a name of an endpoint, if it is not read as a federated one, is answered with one record: the IP
      of an endpoint so called, and of this one if no other is. */
  lemma EndpointNameIsAnswered(cfg: Config, before: seq<Commit>, c: Commit, after: seq<Commit>, a: Address, name: string,
                               local: Result<seq<Record>>, locs: seq<Loc>)
    requires c.Headless? && NoneFor(after, c.svc) && Plain(NamePath(cfg, c.svc)) && TrimRight(cfg.domain, '.') != ""
    requires '.' !in c.svc.name && '.' !in c.svc.ns && '.' !in name && name != "*"
    requires a in Addresses(c.subsets) && IsCalled(c, a, name)
    requires LocalAnswer(cfg, After(cfg, before, c, after), Reverse(Segments(EndpointFQDN(cfg, c.svc, name))), false, local, locs)
    ensures local.Ok? && |local.value| == 1 && OfEndpoint(cfg, c, name, local.value[0].host)
    ensures OwnNames(cfg, Addresses(c.subsets), c.podHostnames) ==> local.value[0].host == a.ip
  {
    hide After, Answers, Segments, NoneFor, EndpointFQDN, Plain, TrimRight, NamePath, OnlyAnswer, Lists, Addresses, IsDNS1123Label;
    hide cfg.ServicePath, cfg.DomainPath;
    var f, l := After(cfg, before, c, after), Loc(cfg.ServicePath(c.svc.ns, c.svc.name), name);
    assert EndpointName(cfg, a, c.podHostnames) == name;
    hide EndpointName;
    EndpointPath(cfg, c.svc, name);
    NotAPod(cfg, c.svc, name);
    HeadlessEntry(cfg, before, c, after, name);
    EntryAnswersAlone(cfg, f, c.svc, name);
    OneAnswerIsListedOnce(f, NamePath(cfg, c.svc) + [name], l, locs, local.value);
  }

  lemma NotAPod(cfg: Config, svc: Service, name: string)
    ensures !cfg.IsPodRecord(NamePath(cfg, svc) + [name])
  {
  }

  // ---- Records in full ----

  /** The name of a record, from its own labels up. */
  lemma RecordName(cfg: Config, svc: Service, labels: seq<string>)
    requires labels != [] && TrimRight(cfg.domain, '.') != ""
    ensures cfg.Fqdn(svc, labels) == Join(Reverse(labels), ".") + "." + DottedName(cfg, svc)
  {
    hide Join, TrimRight, Split, DottedName;
    var trimmed := TrimRight(cfg.domain, '.');
    var domain, front := Split(trimmed, "."), Reverse(labels) + [svc.name, svc.ns, "svc"];
    ReverseReverse(domain);
    assert Reverse(cfg.DomainPath() + ["svc", svc.ns, svc.name] + labels) == front + domain;
    JoinAppend(front, domain, ".");
    JoinAppend(Reverse(labels), [svc.name, svc.ns, "svc"], ".");
    DottedNameIs(cfg, svc);
    EndsWithoutDot(cfg.domain);
    var s := Join(front + domain, ".");
    assert s == Join(front, ".") + "." + trimmed && s[|s| - 1] == trimmed[|trimmed| - 1];
    assert !HasSuffix(s, ".") by { assert s[|s| - 1..][0] == s[|s| - 1]; }
  }

  lemma {:induction false} EndsWithoutDot(s: string)
    ensures var t := TrimRight(s, '.'); t != "" ==> t[|t| - 1] != '.'
  {
    if s != "" && s[|s| - 1] == '.' { EndsWithoutDot(s[..|s| - 1]); }
  }

  lemma DottedNameIs(cfg: Config, svc: Service)
    ensures DottedName(cfg, svc) == Join([svc.name, svc.ns, "svc"], ".") + "." + TrimRight(cfg.domain, '.') + "."
  {
    hide TrimRight;
    assert [svc.name, svc.ns, "svc"][1..] == [svc.ns, "svc"] && [svc.ns, "svc"][1..] == ["svc"];
    assert Join(["svc"], ".") == "svc" && Join([svc.ns, "svc"], ".") == svc.ns + "." + "svc";
  }

  /** The record of a cluster IP, with priority, weight, time to live and key. */
  lemma PortalRecordInFull(cfg: Config, before: seq<Commit>, svc: Service, after: seq<Commit>)
    requires NoneFor(after, svc) && TrimRight(cfg.domain, '.') != ""
    ensures var f, name := After(cfg, before, Portal(svc), after), cfg.LabelOf(svc.clusterIP);
            var l := Loc(cfg.ServicePath(svc.ns, svc.name), name);
            l in f && f[l] == Record(svc.clusterIP, 0, 10, 10, 30, cfg.etcdKey(name + "." + DottedName(cfg, svc)))
  {
    hide After, Fill, NoneFor, TrimRight, DottedName, Join, PortPuts, cfg.ServicePath, cfg.LabelOf, cfg.Fqdn;
    var name := cfg.LabelOf(svc.clusterIP);
    var put := PutAt(cfg, svc, [], name, cfg.SkyMsg(svc.clusterIP, 0));
    SubtreeIsKept(cfg, before, Portal(svc), after, Root, name);
    FillMeans(PortalPuts(cfg, svc), Loc(Root, name));
    RootPath([]);
    forall other | other in PortalPuts(cfg, svc) && PlaceOf(other) == Loc(Root, name) ensures other == put {
      PortalRootPut(cfg, svc, other);
    }
    assert put in PortalPuts(cfg, svc);
    OwnName(cfg, svc, name);
  }

  lemma OwnName(cfg: Config, svc: Service, name: string)
    requires TrimRight(cfg.domain, '.') != ""
    ensures cfg.Fqdn(svc, [] + [name]) == name + "." + DottedName(cfg, svc)
  {
    hide Join, TrimRight, DottedName, cfg.Fqdn;
    RecordName(cfg, svc, [name]);
    JoinOne(name, ".");
    assert Reverse([name]) == [name] && [] + [name] == [name];
  }

  lemma PortalRootPut(cfg: Config, svc: Service, put: Put)
    requires put in PortalPuts(cfg, svc) && PlaceOf(put).path == Root
    ensures put == PutAt(cfg, svc, [], cfg.LabelOf(svc.clusterIP), cfg.SkyMsg(svc.clusterIP, 0))
  {
    hide PutAt, PortPuts, Walk, cfg.LabelOf, cfg.SkyMsg, cfg.SrvRecord;
    var key := cfg.LabelOf(svc.clusterIP);
    var first := PutAt(cfg, svc, [], key, cfg.SkyMsg(svc.clusterIP, 0));
    assert put == first || put in PortPuts(cfg, svc, svc.ports, key, []);
    if put != first {
      PortPutsMean(cfg, svc, svc.ports, key, [], put);
      var p :| p in svc.ports && Named(p) && put == PortPut(cfg, svc, p, key, []);
      PutKeepsPath(cfg, svc, PortPath(p), key, cfg.SrvRecord(svc, p.port, []));
      PortPathWalk(p);
    }
  }
}
