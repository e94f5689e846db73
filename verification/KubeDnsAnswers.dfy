/** What the names of headless services and of named ports are answered with, after every run. */
module KubeDnsAnswers {
  import opened Text
  import opened TreeCaches
  import opened KubeDnsModel
  import opened KubeDnsRuns

  // ---- Entries at the root of a subtree ----

  function AtRoot(puts: seq<Put>): seq<Put> {
    if puts == [] then []
    else AtRoot(puts[..|puts| - 1]) + if puts[|puts| - 1].path == [] then [puts[|puts| - 1]] else []
  }

  lemma {:induction false} AtRootAppend(a: seq<Put>, b: seq<Put>)
    ensures AtRoot(a + b) == AtRoot(a) + AtRoot(b)
  {
    if b == [] {
      assert a + b == a;
    } else {
      AtRootAppend(a, b[..|b| - 1]);
      assert (a + b)[..|a + b| - 1] == a + b[..|b| - 1];
    }
  }

  /** What a subtree holds at its root is decided by the puts there. */
  lemma {:induction false} RootOfFill(puts: seq<Put>, key: string)
    ensures Loc(Root, key) in Fill(puts) <==> Loc(Root, key) in Fill(AtRoot(puts))
    ensures Loc(Root, key) in Fill(puts) ==> Fill(puts)[Loc(Root, key)] == Fill(AtRoot(puts))[Loc(Root, key)]
  {
    hide Walk;
    if puts != [] {
      var front, last := puts[..|puts| - 1], puts[|puts| - 1];
      RootOfFill(front, key);
      RootPath(last.path);
      if last.path == [] {
        FillSnoc(AtRoot(front), last);
      } else {
        assert AtRoot(puts) == AtRoot(front);
      }
    }
  }

  lemma FillSnoc(front: seq<Put>, last: Put)
    ensures Fill(front + [last]) == Fill(front)[Loc(Walk(last.path), last.key) := last.rec]
  {
    assert (front + [last])[..|front|] == front;
  }

  lemma RootPath(path: seq<string>)
    ensures Walk(path) == Root <==> path == []
  {
  }

  lemma {:induction false} PortsAreOffTheRoot(cfg: Config, svc: Service, ports: seq<Port>, key: string, labels: seq<string>)
    ensures AtRoot(PortPuts(cfg, svc, ports, key, labels)) == []
  {
    hide PutAt, cfg.SrvRecord;
    if ports != [] {
      var front, p := ports[..|ports| - 1], ports[|ports| - 1];
      PortsAreOffTheRoot(cfg, svc, front, key, labels);
      if p.name != "" && p.protocol != "" {
        var put := PutAt(cfg, svc, PortPath(p), key, cfg.SrvRecord(svc, p.port, labels));
        AtRootAppend(PortPuts(cfg, svc, front, key, labels), [put]);
        PutKeepsPath(cfg, svc, PortPath(p), key, cfg.SrvRecord(svc, p.port, labels));
        assert [put][..0] == [];
      } else {
        assert PortPuts(cfg, svc, ports, key, labels) == PortPuts(cfg, svc, front, key, labels);
      }
    }
  }

  lemma PutKeepsPath(cfg: Config, svc: Service, path: seq<string>, key: string, rec: Record)
    ensures var put := PutAt(cfg, svc, path, key, rec);
            put.path == path && put.key == key && put.rec.host == rec.host && put.rec.port == rec.port
  {
  }

  // ---- Headless services ----

  function RootPut(cfg: Config, svc: Service, a: Address, podHostnames: map<string, string>): Put {
    PutAt(cfg, svc, [], EndpointName(cfg, a, podHostnames), cfg.SkyMsg(a.ip, 0))
  }

  function RootPuts(cfg: Config, svc: Service, addresses: seq<Address>, podHostnames: map<string, string>): seq<Put> {
    if addresses == [] then []
    else RootPuts(cfg, svc, addresses[..|addresses| - 1], podHostnames)
         + [RootPut(cfg, svc, addresses[|addresses| - 1], podHostnames)]
  }

  lemma {:induction false} RootPutsAppend(cfg: Config, svc: Service, a: seq<Address>, b: seq<Address>,
                                          podHostnames: map<string, string>)
    ensures RootPuts(cfg, svc, a + b, podHostnames)
            == RootPuts(cfg, svc, a, podHostnames) + RootPuts(cfg, svc, b, podHostnames)
  {
    hide RootPut;
    if b == [] {
      assert a + b == a;
    } else {
      RootPutsAppend(cfg, svc, a, b[..|b| - 1], podHostnames);
      assert (a + b)[..|a + b| - 1] == a + b[..|b| - 1];
    }
  }

  lemma {:induction false} AddressRoots(cfg: Config, svc: Service, addresses: seq<Address>, ports: seq<Port>,
                                        podHostnames: map<string, string>)
    ensures AtRoot(AddressPuts(cfg, svc, addresses, ports, podHostnames)) == RootPuts(cfg, svc, addresses, podHostnames)
  {
    hide PortPuts, EndpointName, cfg.SkyMsg;
    if addresses != [] {
      var front, a := addresses[..|addresses| - 1], addresses[|addresses| - 1];
      var name := EndpointName(cfg, a, podHostnames);
      var before, put := AddressPuts(cfg, svc, front, ports, podHostnames), RootPut(cfg, svc, a, podHostnames);
      AddressRoots(cfg, svc, front, ports, podHostnames);
      PortsAreOffTheRoot(cfg, svc, ports, name, [name]);
      AtRootAppend(before + [put], PortPuts(cfg, svc, ports, name, [name]));
      AtRootAppend(before, [put]);
      assert [put][..0] == [] && AtRoot([put]) == [put];
    }
  }

  /** All addresses of an endpoints object. */
  function Addresses(subsets: seq<Subset>): seq<Address> {
    if subsets == [] then [] else Addresses(subsets[..|subsets| - 1]) + subsets[|subsets| - 1].addresses
  }

  lemma {:induction false} HeadlessRoots(cfg: Config, svc: Service, subsets: seq<Subset>, podHostnames: map<string, string>)
    ensures AtRoot(HeadlessPuts(cfg, svc, subsets, podHostnames)) == RootPuts(cfg, svc, Addresses(subsets), podHostnames)
  {
    hide AddressPuts, RootPuts;
    if subsets == [] {
      NoRoots(cfg, svc, podHostnames);
    } else {
      var front, s := subsets[..|subsets| - 1], subsets[|subsets| - 1];
      HeadlessRoots(cfg, svc, front, podHostnames);
      AddressRoots(cfg, svc, s.addresses, s.ports, podHostnames);
      AtRootAppend(HeadlessPuts(cfg, svc, front, podHostnames), AddressPuts(cfg, svc, s.addresses, s.ports, podHostnames));
      RootPutsAppend(cfg, svc, Addresses(front), s.addresses, podHostnames);
    }
  }

  lemma NoRoots(cfg: Config, svc: Service, podHostnames: map<string, string>)
    ensures RootPuts(cfg, svc, [], podHostnames) == []
  {
  }

  /** Addresses with different IPs have different names. */
  ghost predicate OwnNames(cfg: Config, addresses: seq<Address>, podHostnames: map<string, string>) {
    forall a, b :: a in addresses && b in addresses && a.ip != b.ip ==>
      EndpointName(cfg, a, podHostnames) != EndpointName(cfg, b, podHostnames)
  }

  lemma {:induction false} FillOfRoots(cfg: Config, svc: Service, addresses: seq<Address>, podHostnames: map<string, string>,
                                       key: string)
    ensures var f := Fill(RootPuts(cfg, svc, addresses, podHostnames));
            && (Loc(Root, key) in f <==> exists a :: a in addresses && EndpointName(cfg, a, podHostnames) == key)
            && (Loc(Root, key) in f ==>
                  exists a :: a in addresses && EndpointName(cfg, a, podHostnames) == key && f[Loc(Root, key)].host == a.ip)
  {
    hide EndpointName, cfg.SkyMsg;
    if addresses != [] {
      var front, last := addresses[..|addresses| - 1], addresses[|addresses| - 1];
      FillOfRoots(cfg, svc, front, podHostnames, key);
      var puts := RootPuts(cfg, svc, front, podHostnames);
      var put := RootPut(cfg, svc, last, podHostnames);
      assert (puts + [put])[..|puts|] == puts;
      PutKeepsPath(cfg, svc, [], EndpointName(cfg, last, podHostnames), cfg.SkyMsg(last.ip, 0));
      SkyMsgHost(cfg, last.ip, 0);
      assert last in addresses;
      assert forall a :: a in addresses <==> a in front || a == last;
    }
  }

  lemma SkyMsgHost(cfg: Config, host: string, port: int)
    ensures cfg.SkyMsg(host, port).host == host && cfg.SkyMsg(host, port).port == port
  {
  }

  // ---- From an event to the next one for the same service ----

  function PutsOf(cfg: Config, c: Commit): seq<Put> {
    match c
    case Portal(svc) => PortalPuts(cfg, svc)
    case Headless(svc, subsets, podHostnames) => HeadlessPuts(cfg, svc, subsets, podHostnames)
    case Remove(svc) => []
  }

  ghost function After(cfg: Config, before: seq<Commit>, c: Commit, after: seq<Commit>): Flat {
    Run(cfg, EMPTY, before + [c] + after).records
  }

  predicate NoneFor(after: seq<Commit>, svc: Service) {
    forall i :: 0 <= i < |after| ==> !For(after[i], svc.ns, svc.name)
  }

  /** Below the service's node there is what its last event put there. */
  lemma SubtreeIsKept(cfg: Config, before: seq<Commit>, c: Commit, after: seq<Commit>, q: Path, key: string)
    requires !c.Remove? && NoneFor(after, c.svc)
    ensures var f, l := After(cfg, before, c, after), Loc(Plus(cfg.ServicePath(c.svc.ns, c.svc.name), q), key);
            && (l in f <==> Loc(q, key) in Fill(PutsOf(cfg, c)))
            && (l in f ==> f[l] == Fill(PutsOf(cfg, c))[Loc(q, key)])
  {
    hide PortalPuts, HeadlessPuts, Fill, cfg.ServicePath;
    var base := cfg.ServicePath(c.svc.ns, c.svc.name);
    var s := Run(cfg, EMPTY, before);
    assert (before + [c])[..|before|] == before;
    RunAppend(cfg, EMPTY, before + [c], after);
    RunsLeaveOthers(cfg, Apply(cfg, s, c), after, c.svc.ns, c.svc.name);
    StripPlus(base, q);
    assert Below(base, Loc(Plus(base, q), key).path);
  }

  /** From the event that lists a headless service's endpoints until the next event for it, its plain name is answered
      by one place per endpoint name, and by no other. */
  lemma HeadlessNameIsAnswered(cfg: Config, before: seq<Commit>, c: Commit, after: seq<Commit>, l: Loc)
    requires c.Headless? && NoneFor(after, c.svc) && Plain(NamePath(cfg, c.svc))
    ensures var f := After(cfg, before, c, after);
            l in f && Answers(f, NamePath(cfg, c.svc), l)
            <==> exists a :: a in Addresses(c.subsets)
                   && l == Loc(cfg.ServicePath(c.svc.ns, c.svc.name), EndpointName(cfg, a, c.podHostnames))
  {
    hide EndpointName, Addresses, Fill, Run, Answers, Plain, NamePath, NoneFor, cfg.ServicePath;
    var f, base := After(cfg, before, c, after), cfg.ServicePath(c.svc.ns, c.svc.name);
    RunsStayBelowServices(cfg, before + [c] + after);
    if l in f {
      PlainNameAnswers(cfg, f, c.svc, l);
    }
    if l.path == base {
      HeadlessEntry(cfg, before, c, after, l.key);
    }
  }

  /** The entries at the node of a headless service are its endpoints. */
  lemma HeadlessEntry(cfg: Config, before: seq<Commit>, c: Commit, after: seq<Commit>, key: string)
    requires c.Headless? && NoneFor(after, c.svc)
    ensures var f, l := After(cfg, before, c, after), Loc(cfg.ServicePath(c.svc.ns, c.svc.name), key);
            && (l in f <==> exists a :: a in Addresses(c.subsets) && EndpointName(cfg, a, c.podHostnames) == key)
            && (l in f ==> exists a :: a in Addresses(c.subsets) && EndpointName(cfg, a, c.podHostnames) == key
                                       && f[l].host == a.ip)
  {
    hide EndpointName, Addresses, Fill, Run, NoneFor, HeadlessPuts, RootPuts, AtRoot, cfg.ServicePath, After;
    SubtreeIsKept(cfg, before, c, after, Root, key);
    RootOfFill(HeadlessPuts(cfg, c.svc, c.subsets, c.podHostnames), key);
    HeadlessRoots(cfg, c.svc, c.subsets, c.podHostnames);
    FillOfRoots(cfg, c.svc, Addresses(c.subsets), c.podHostnames, key);
  }

  /** The record under the name of this endpoint gives its IP. */
  ghost predicate Listed(cfg: Config, f: Flat, c: Commit, a: Address)
    requires c.Headless?
  {
    var l := Loc(cfg.ServicePath(c.svc.ns, c.svc.name), EndpointName(cfg, a, c.podHostnames));
    l in f && f[l].host == a.ip
  }

  /** Every endpoint is listed under its name, exactly when no two IPs share a name: a later one replaces an earlier. */
  lemma EndpointsAreListed(cfg: Config, before: seq<Commit>, c: Commit, after: seq<Commit>)
    requires c.Headless? && NoneFor(after, c.svc)
    ensures var f := After(cfg, before, c, after);
            (forall a :: a in Addresses(c.subsets) ==> Listed(cfg, f, c, a))
            <==> OwnNames(cfg, Addresses(c.subsets), c.podHostnames)
  {
    hide EndpointName, Addresses, NoneFor, cfg.ServicePath, After;
    var f, all := After(cfg, before, c, after), Addresses(c.subsets);
    if OwnNames(cfg, all, c.podHostnames) {
      forall a | a in all ensures Listed(cfg, f, c, a) {
        HeadlessEntry(cfg, before, c, after, EndpointName(cfg, a, c.podHostnames));
      }
    } else {
      var a, b :| a in all && b in all && a.ip != b.ip
                  && EndpointName(cfg, a, c.podHostnames) == EndpointName(cfg, b, c.podHostnames);
      assert !Listed(cfg, f, c, a) || !Listed(cfg, f, c, b);
    }
  }

  /** Two endpoints with one hostname: only the second one's IP is listed. */
  lemma SharedHostnameHidesAnEndpoint(cfg: Config, svc: Service, ip: string, other: string, hostname: string)
    requires ip != other && hostname != ""
    ensures var c := Headless(svc, [Subset([Address(ip, hostname), Address(other, hostname)], [])], map[]);
            var f := After(cfg, [], c, []);
            !Listed(cfg, f, c, Address(ip, hostname)) && Listed(cfg, f, c, Address(other, hostname))
  {
    hide After, Fill, HeadlessPuts, PutAt, AtRoot, RootPuts, Addresses, cfg.ServicePath, cfg.SkyMsg;
    var a, b := Address(ip, hostname), Address(other, hostname);
    var subsets := [Subset([a, b], [])];
    var c := Headless(svc, subsets, map[]);
    SubtreeIsKept(cfg, [], c, [], Root, hostname);
    RootOfFill(HeadlessPuts(cfg, svc, subsets, map[]), hostname);
    HeadlessRoots(cfg, svc, subsets, map[]);
    TwoAddresses(a, b);
    LastRootPutWins(cfg, svc, [a], b, map[]);
  }

  lemma TwoAddresses(a: Address, b: Address)
    ensures Addresses([Subset([a, b], [])]) == [a] + [b]
  {
    assert [Subset([a, b], [])][..0] == [];
  }

  lemma LastRootPutWins(cfg: Config, svc: Service, front: seq<Address>, last: Address, podHostnames: map<string, string>)
    ensures var f, l := Fill(RootPuts(cfg, svc, front + [last], podHostnames)), Loc(Root, EndpointName(cfg, last, podHostnames));
            l in f && f[l].host == last.ip
  {
    hide EndpointName, cfg.SkyMsg;
    var puts, put := RootPuts(cfg, svc, front, podHostnames), RootPut(cfg, svc, last, podHostnames);
    assert (front + [last])[..|front|] == front;
    assert (puts + [put])[..|puts|] == puts;
    PutKeepsPath(cfg, svc, [], EndpointName(cfg, last, podHostnames), cfg.SkyMsg(last.ip, 0));
    SkyMsgHost(cfg, last.ip, 0);
  }

  // ---- Named ports ----

  predicate Named(p: Port) { p.name != "" && p.protocol != "" }

  /** The named ports that share the path of port `i` come before it. */
  predicate IsLastOfItsName(ports: seq<Port>, i: nat)
    requires i < |ports|
  {
    Named(ports[i]) && forall j :: i < j < |ports| && Named(ports[j]) ==> PortPath(ports[j]) != PortPath(ports[i])
  }

  /** Off the root, a portal subtree has one entry per named port, at the path of that port. */
  ghost predicate HoldsPorts(cfg: Config, svc: Service, f: Flat, ports: seq<Port>, key: string) {
    && (forall l :: l in f && l.path != Root ==>
          l.key == key && exists i :: 0 <= i < |ports| && l.path == Walk(PortPath(ports[i])))
    && (forall i :: 0 <= i < |ports| && IsLastOfItsName(ports, i) ==> HoldsPort(cfg, svc, f, ports[i], key))
  }

  ghost predicate HoldsPort(cfg: Config, svc: Service, f: Flat, p: Port, key: string) {
    var l := Loc(Walk(PortPath(p)), key);
    l in f && f[l].host == cfg.ServiceFQDN(svc) && f[l].port == p.port
  }

  lemma {:induction false} PortsFill(cfg: Config, svc: Service, first: Put, ports: seq<Port>, key: string)
    requires first.path == []
    ensures HoldsPorts(cfg, svc, Fill([first] + PortPuts(cfg, svc, ports, key, [])), ports, key)
  {
    hide PutAt, PortPath, cfg.SrvRecord, cfg.ServiceFQDN;
    if ports == [] {
      assert [first] + PortPuts(cfg, svc, ports, key, []) == [first];
      assert [first][..0] == [];
    } else {
      var n := |ports| - 1;
      var front, p := ports[..n], ports[n];
      PortsFill(cfg, svc, first, front, key);
      var before := [first] + PortPuts(cfg, svc, front, key, []);
      if Named(p) {
        var put := PutAt(cfg, svc, PortPath(p), key, cfg.SrvRecord(svc, p.port, []));
        assert [first] + PortPuts(cfg, svc, ports, key, []) == before + [put];
        assert (before + [put])[..|before|] == before;
        PutKeepsPath(cfg, svc, PortPath(p), key, cfg.SrvRecord(svc, p.port, []));
        SrvRecordIs(cfg, svc, p.port);
        OneMorePort(cfg, svc, Fill(before), ports, key, put);
      } else {
        assert [first] + PortPuts(cfg, svc, ports, key, []) == before;
        UnnamedPort(cfg, svc, Fill(before), ports, key);
      }
    }
  }

  lemma SrvRecordIs(cfg: Config, svc: Service, port: int)
    ensures cfg.SrvRecord(svc, port, []).host == cfg.ServiceFQDN(svc) && cfg.SrvRecord(svc, port, []).port == port
  {
  }

  lemma UnnamedPort(cfg: Config, svc: Service, f: Flat, ports: seq<Port>, key: string)
    requires ports != [] && !Named(ports[|ports| - 1])
    requires HoldsPorts(cfg, svc, f, ports[..|ports| - 1], key)
    ensures HoldsPorts(cfg, svc, f, ports, key)
  {
    hide HoldsPort, PortPath;
    var front := ports[..|ports| - 1];
    forall i: nat | i < |ports| && IsLastOfItsName(ports, i) ensures HoldsPort(cfg, svc, f, ports[i], key) {
      assert ports[i] == front[i] && IsLastOfItsName(front, i);
    }
    forall l | l in f && l.path != Root ensures exists i :: 0 <= i < |ports| && l.path == Walk(PortPath(ports[i])) {
      var i :| 0 <= i < |front| && l.path == Walk(PortPath(front[i]));
      assert l.path == Walk(PortPath(ports[i]));
    }
  }

  lemma OneMorePort(cfg: Config, svc: Service, f: Flat, ports: seq<Port>, key: string, put: Put)
    requires ports != [] && Named(ports[|ports| - 1]) && HoldsPorts(cfg, svc, f, ports[..|ports| - 1], key)
    requires put.path == PortPath(ports[|ports| - 1]) && put.key == key
    requires put.rec.host == cfg.ServiceFQDN(svc) && put.rec.port == ports[|ports| - 1].port
    ensures HoldsPorts(cfg, svc, f[Loc(Walk(put.path), put.key) := put.rec], ports, key)
  {
    hide PortPath, Walk, cfg.ServiceFQDN;
    var n := |ports| - 1;
    var front, g := ports[..n], f[Loc(Walk(put.path), put.key) := put.rec];
    forall i: nat | i < |ports| && IsLastOfItsName(ports, i) ensures HoldsPort(cfg, svc, g, ports[i], key) {
      if i < n {
        assert ports[i] == front[i] && IsLastOfItsName(front, i);
        assert HoldsPort(cfg, svc, f, front[i], key);
        WalkIsInjective(PortPath(ports[i]), PortPath(ports[n]));
      }
    }
    forall l | l in g && l.path != Root ensures exists i :: 0 <= i < |ports| && l.path == Walk(PortPath(ports[i])) {
      if l == Loc(Walk(put.path), put.key) {
        assert l.path == Walk(PortPath(ports[n]));
      } else {
        var i :| 0 <= i < |front| && l.path == Walk(PortPath(front[i]));
        assert l.path == Walk(PortPath(ports[i]));
      }
    }
  }

  lemma {:induction false} WalkIsInjective(a: seq<string>, b: seq<string>)
    ensures Walk(a) == Walk(b) ==> a == b
  {
    if a != [] && b != [] {
      WalkIsInjective(Front(a), Front(b));
      assert a == Front(a) + [Last(a)] && b == Front(b) + [Last(b)];
    }
  }

  /** The name of a port of a service: _port._protocol.service. */
  function PortNamePath(cfg: Config, svc: Service, p: Port): seq<string> { NamePath(cfg, svc) + PortPath(p) }

  /** The node of a port below the node of its service. */
  function PortNode(base: Path, p: Port): Path { Sub(Sub(base, PortPath(p)[0]), PortPath(p)[1]) }

  lemma PortalPorts(cfg: Config, svc: Service)
    ensures HoldsPorts(cfg, svc, Fill(PortalPuts(cfg, svc)), svc.ports, cfg.LabelOf(svc.clusterIP))
  {
    hide PutAt, HoldsPorts, Fill, PortPuts, cfg.LabelOf, cfg.SkyMsg;
    var key := cfg.LabelOf(svc.clusterIP);
    PutKeepsPath(cfg, svc, [], key, cfg.SkyMsg(svc.clusterIP, 0));
    PortsFill(cfg, svc, PutAt(cfg, svc, [], key, cfg.SkyMsg(svc.clusterIP, 0)), svc.ports, key);
  }

  lemma PortPathWalk(p: Port)
    ensures Walk(PortPath(p)) == PortNode(Root, p) && |PortPath(p)| == 2
    ensures PortPath(p)[0] != "*" && PortPath(p)[1] != "*"
  {
    var path := PortPath(p);
    assert Front(path) == [path[0]] && Front([path[0]]) == [];
    assert Walk([path[0]]) == Sub(Root, path[0]);
    assert Walk(path) == Sub(Walk(Front(path)), path[1]);
    assert path[0][0] == '_' && path[1][0] == '_' && "*"[0] == '*';
  }

  lemma PlusPort(base: Path, p: Port)
    ensures Plus(base, PortNode(Root, p)) == PortNode(base, p)
    ensures Plus(base, Sub(Root, PortPath(p)[0])) == Sub(base, PortPath(p)[0])
  {
    assert Plus(base, Root) == base;
    assert Plus(base, Sub(Root, PortPath(p)[0])) == Sub(base, PortPath(p)[0]);
  }

  /** What lies below the node of a portal service at the first and the second level. */
  lemma PortalLevels(cfg: Config, before: seq<Commit>, svc: Service, after: seq<Commit>, i: nat, m: Loc)
    requires NoneFor(after, svc) && i < |svc.ports| && IsLastOfItsName(svc.ports, i)
    ensures var f, base := After(cfg, before, Portal(svc), after), cfg.ServicePath(svc.ns, svc.name);
            var p, key := svc.ports[i], cfg.LabelOf(svc.clusterIP);
            var l := Loc(PortNode(base, p), key);
            && (m.path == Sub(base, PortPath(p)[0]) ==> m !in f)
            && (m.path == PortNode(base, p) && m in f ==> m == l)
            && l in f && f[l].host == cfg.ServiceFQDN(svc) && f[l].port == p.port
  {
    hide Fill, PortalPuts, After, NoneFor, IsLastOfItsName, PortPath, cfg.ServicePath, cfg.LabelOf, cfg.ServiceFQDN;
    var p, key := svc.ports[i], cfg.LabelOf(svc.clusterIP);
    var fill := Fill(PortalPuts(cfg, svc));
    PortalPorts(cfg, svc);
    PortPathWalk(p);
    PlusPort(cfg.ServicePath(svc.ns, svc.name), p);
    assert HoldsPort(cfg, svc, fill, p, key);
    assert Loc(PortNode(Root, p), m.key) in fill ==> m.key == key;
    SubtreeIsKept(cfg, before, Portal(svc), after, PortNode(Root, p), key);
    SubtreeIsKept(cfg, before, Portal(svc), after, PortNode(Root, p), m.key);
    SubtreeIsKept(cfg, before, Portal(svc), after, Sub(Root, PortPath(p)[0]), m.key);
    if Loc(Sub(Root, PortPath(p)[0]), m.key) in fill {
      var j :| 0 <= j < |svc.ports| && Sub(Root, PortPath(p)[0]) == Walk(PortPath(svc.ports[j]));
      PortPathWalk(svc.ports[j]);
    }
  }

  /** The last named port that has the path of port `i`. */
  ghost function LastOfItsName(ports: seq<Port>, i: nat): (j: nat)
    requires i < |ports| && Named(ports[i])
    ensures i <= j < |ports| && IsLastOfItsName(ports, j) && PortPath(ports[j]) == PortPath(ports[i])
    decreases |ports| - i
  {
    if IsLastOfItsName(ports, i) then i
    else
      var k :| i < k < |ports| && Named(ports[k]) && PortPath(ports[k]) == PortPath(ports[i]);
      LastOfItsName(ports, k)
  }

  /** From the event that adds a portal service until the next event for it, the name of each of its named ports is
      answered by exactly one record, which gives the service's name and the number of the last port so called: the
      port's own number if and only if that one has the same. */
  lemma PortNameIsAnswered(cfg: Config, before: seq<Commit>, svc: Service, after: seq<Commit>, i: nat)
    requires NoneFor(after, svc) && i < |svc.ports| && Named(svc.ports[i]) && Plain(NamePath(cfg, svc))
    ensures var f, base := After(cfg, before, Portal(svc), after), cfg.ServicePath(svc.ns, svc.name);
            var l := Loc(PortNode(base, svc.ports[i]), cfg.LabelOf(svc.clusterIP));
            && OnlyAnswer(f, PortNamePath(cfg, svc, svc.ports[i]), l)
            && f[l].host == cfg.ServiceFQDN(svc) && f[l].port == svc.ports[LastOfItsName(svc.ports, i)].port
  {
    hide After, NoneFor, OnlyAnswer, NamePath, cfg.ServicePath, cfg.LabelOf, cfg.ServiceFQDN;
    LastPortNameIsAnswered(cfg, before, svc, after, LastOfItsName(svc.ports, i));
  }

  lemma LastPortNameIsAnswered(cfg: Config, before: seq<Commit>, svc: Service, after: seq<Commit>, i: nat)
    requires NoneFor(after, svc) && i < |svc.ports| && IsLastOfItsName(svc.ports, i) && Plain(NamePath(cfg, svc))
    ensures var f, base := After(cfg, before, Portal(svc), after), cfg.ServicePath(svc.ns, svc.name);
            var l := Loc(PortNode(base, svc.ports[i]), cfg.LabelOf(svc.clusterIP));
            && OnlyAnswer(f, PortNamePath(cfg, svc, svc.ports[i]), l)
            && f[l].host == cfg.ServiceFQDN(svc) && f[l].port == svc.ports[i].port
  {
    hide After, NoneFor, IsLastOfItsName, Answers, NamePath, PortPath, cfg.ServicePath, cfg.LabelOf, cfg.ServiceFQDN;
    var f, base := After(cfg, before, Portal(svc), after), cfg.ServicePath(svc.ns, svc.name);
    var p := svc.ports[i];
    PortPathWalk(p);
    var q, l := PortNamePath(cfg, svc, p), Loc(PortNode(base, p), cfg.LabelOf(svc.clusterIP));
    PortalLevels(cfg, before, svc, after, i, l);
    forall m | m in f ensures Answers(f, q, m) <==> m == l {
      PortalLevels(cfg, before, svc, after, i, m);
      PortalLevels(cfg, before, svc, after, i, Loc(Sub(base, PortPath(p)[0]), PortPath(p)[1]));
      PortNameAsks(cfg, f, svc, p, m);
    }
  }

  lemma PortNameAsks(cfg: Config, f: Flat, svc: Service, p: Port, m: Loc)
    requires Plain(NamePath(cfg, svc))
    ensures var base := cfg.ServicePath(svc.ns, svc.name);
            Answers(f, PortNamePath(cfg, svc, p), m) <==>
              || (m.path == Sub(base, PortPath(p)[0]) && m.key == PortPath(p)[1])
              || (m.path == PortNode(base, p) && Loc(Sub(base, PortPath(p)[0]), PortPath(p)[1]) !in f)
  {
    hide Walk, StemMatch, cfg.DomainPath, PortPath;
    PortPathWalk(p);
    var q, stem := PortNamePath(cfg, svc, p), NamePath(cfg, svc) + [PortPath(p)[0]];
    assert q == stem + [PortPath(p)[1]];
    assert Front(q) == stem && Last(q) == PortPath(p)[1];
    ServiceNode(cfg, svc);
    WalkOne(NamePath(cfg, svc), PortPath(p)[0]);
    PlainStem(stem, m.path);
    if m.path.Sub? { PlainStem(stem, m.path.up); }
  }

  lemma ServiceNode(cfg: Config, svc: Service)
    ensures Walk(NamePath(cfg, svc)) == cfg.ServicePath(svc.ns, svc.name)
  {
    hide Walk;
    WalkTwo(cfg.DomainPath(), "svc", svc.ns);
    WalkOne(cfg.DomainPath() + ["svc", svc.ns], svc.name);
    assert NamePath(cfg, svc) == cfg.DomainPath() + ["svc", svc.ns] + [svc.name];
  }

  // ---- Queries, as names ----

  /** `host` is the IP of an endpoint called `name`. */
  ghost predicate OfEndpoint(cfg: Config, c: Commit, name: string, host: string)
    requires c.Headless?
  {
    exists a :: a in Addresses(c.subsets) && EndpointName(cfg, a, c.podHostnames) == name && host == a.ip
  }

  /** A query for the name of a headless service is not federated, and returns one record per endpoint name, each with
      the IP of an endpoint so called; when the endpoints have names of their own, every one of them is listed. */
  lemma HeadlessQueryListsEndpoints(cfg: Config, before: seq<Commit>, c: Commit, after: seq<Commit>,
                                    local: Result<seq<Record>>, locs: seq<Loc>)
    requires c.Headless? && NoneFor(after, c.svc)
    requires '.' !in c.svc.name && '.' !in c.svc.ns && Plain(NamePath(cfg, c.svc)) && TrimRight(cfg.domain, '.') != ""
    requires LocalAnswer(cfg, After(cfg, before, c, after), Reverse(Segments(cfg.ServiceFQDN(c.svc))), false, local, locs)
    ensures !cfg.IsFederationQuery(Segments(cfg.ServiceFQDN(c.svc)))
    ensures local.Ok? && Lists(After(cfg, before, c, after), locs, local.value)
    ensures forall l :: l in locs <==>
              exists a :: a in Addresses(c.subsets)
                && l == Loc(cfg.ServicePath(c.svc.ns, c.svc.name), EndpointName(cfg, a, c.podHostnames))
    ensures forall i :: 0 <= i < |local.value| ==> OfEndpoint(cfg, c, locs[i].key, local.value[i].host)
    ensures OwnNames(cfg, Addresses(c.subsets), c.podHostnames) ==>
              forall a :: a in Addresses(c.subsets) ==> exists i :: 0 <= i < |local.value| && local.value[i].host == a.ip
  {
    hide After, Answers, Segments, EndpointName, Addresses, NoneFor, OwnNames, cfg.ServicePath;
    var f := After(cfg, before, c, after);
    ServiceNameLeadsToPath(cfg, c.svc);
    forall l ensures l in locs <==>
                       exists a :: a in Addresses(c.subsets)
                         && l == Loc(cfg.ServicePath(c.svc.ns, c.svc.name), EndpointName(cfg, a, c.podHostnames))
    {
      HeadlessNameIsAnswered(cfg, before, c, after, l);
    }
    forall i | 0 <= i < |local.value|
      ensures OfEndpoint(cfg, c, locs[i].key, local.value[i].host)
    {
      assert locs[i] in locs;
      HeadlessEntry(cfg, before, c, after, locs[i].key);
    }
    if OwnNames(cfg, Addresses(c.subsets), c.podHostnames) {
      EndpointsAreListed(cfg, before, c, after);
      forall a | a in Addresses(c.subsets) ensures exists i :: 0 <= i < |local.value| && local.value[i].host == a.ip {
        assert Listed(cfg, f, c, a);
        var l := Loc(cfg.ServicePath(c.svc.ns, c.svc.name), EndpointName(cfg, a, c.podHostnames));
        assert l in locs;
        var i :| 0 <= i < |locs| && locs[i] == l;
        assert local.value[i].host == a.ip;
      }
    }
  }

  /** The name under which a port is looked up. */
  function PortName(cfg: Config, svc: Service, p: Port): string {
    PortPath(p)[1] + "." + PortPath(p)[0] + "." + cfg.ServiceFQDN(svc)
  }

  lemma LabelsInFront(a: string, b: string, name: string)
    requires '.' !in a && '.' !in b && TrimRight(name, '.') != ""
    ensures Segments(a + "." + b + "." + name) == [a, b] + Segments(name)
  {
    var front, trimmed := a + "." + b + ".", TrimRight(name, '.');
    TrimRightAppend(front, name, '.');
    hide TrimRight, Split, Join;
    var labels := Split(trimmed, ".");
    SplitFree(trimmed, '.');
    JoinAppend([a, b], labels, ".");
    JoinAppend([a], [b], ".");
    JoinOne(a, ".");
    JoinOne(b, ".");
    assert [a] + [b] == [a, b];
    assert Join([a, b] + labels, ".") == front + trimmed;
    SplitJoin([a, b] + labels, '.');
  }

  lemma ServiceNameIsNotDots(cfg: Config, svc: Service)
    requires '.' !in svc.name && '.' !in svc.ns && TrimRight(cfg.domain, '.') != ""
    ensures TrimRight(cfg.ServiceFQDN(svc), '.') != ""
  {
    ServiceNameLeadsToPath(cfg, svc);
    hide cfg.ServiceFQDN, TrimRight, Segments;
    assert |Segments(cfg.ServiceFQDN(svc))| == |Reverse(Segments(cfg.ServiceFQDN(svc)))| == |NamePath(cfg, svc)| >= 3;
    DotsAreOneSegment(cfg.ServiceFQDN(svc));
  }

  lemma DotsAreOneSegment(name: string)
    ensures TrimRight(name, '.') == "" ==> |Segments(name)| == 1
  {
  }

  lemma PortNameLeadsToPath(cfg: Config, svc: Service, p: Port)
    requires '.' !in svc.name && '.' !in svc.ns && '.' !in p.name && '.' !in PortPath(p)[0]
    requires TrimRight(cfg.domain, '.') != ""
    ensures Reverse(Segments(PortName(cfg, svc, p))) == PortNamePath(cfg, svc, p)
    ensures |Segments(PortName(cfg, svc, p))| == |cfg.DomainPath()| + 5
  {
    ServiceNameIsNotDots(cfg, svc);
    ServiceNameLeadsToPath(cfg, svc);
    assert '.' !in PortPath(p)[1];
    hide Segments, TrimRight, cfg.ServiceFQDN;
    LabelsInFront(PortPath(p)[1], PortPath(p)[0], cfg.ServiceFQDN(svc));
    var labels := Segments(cfg.ServiceFQDN(svc));
    assert |labels| == |Reverse(labels)| == |NamePath(cfg, svc)|;
    assert Reverse([PortPath(p)[1], PortPath(p)[0]] + labels) == Reverse(labels) + PortPath(p);
  }

  /** A query for the name of a port of a portal service is not federated, and returns one record, with the service's
      name and the number of the last port so called. */
  lemma PortQueryHasOneAnswer(cfg: Config, before: seq<Commit>, svc: Service, after: seq<Commit>, i: nat,
                              local: Result<seq<Record>>, locs: seq<Loc>)
    requires NoneFor(after, svc) && i < |svc.ports| && Named(svc.ports[i]) && Plain(NamePath(cfg, svc))
    requires '.' !in svc.name && '.' !in svc.ns && '.' !in svc.ports[i].name && '.' !in PortPath(svc.ports[i])[0]
    requires TrimRight(cfg.domain, '.') != ""
    requires LocalAnswer(cfg, After(cfg, before, Portal(svc), after), Reverse(Segments(PortName(cfg, svc, svc.ports[i]))), false,
                         local, locs)
    ensures !cfg.IsFederationQuery(Segments(PortName(cfg, svc, svc.ports[i])))
    ensures local.Ok? && |local.value| == 1 && local.value[0].host == cfg.ServiceFQDN(svc)
    ensures local.value[0].port == svc.ports[LastOfItsName(svc.ports, i)].port
  {
    hide After, Answers, Segments, Lists, OnlyAnswer, NoneFor, PortPath, PortName, Plain, cfg.ServicePath, cfg.LabelOf,
      cfg.ServiceFQDN;
    var f, base := After(cfg, before, Portal(svc), after), cfg.ServicePath(svc.ns, svc.name);
    var p := svc.ports[i];
    var q, l := PortNamePath(cfg, svc, p), Loc(PortNode(base, p), cfg.LabelOf(svc.clusterIP));
    PortNameLeadsToPath(cfg, svc, p);
    PortNameIsAnswered(cfg, before, svc, after, i);
    PortNamesAreNotPods(cfg, svc, p);
    OneAnswerIsListedOnce(f, q, l, locs, local.value);
  }

  lemma PortNamesAreNotPods(cfg: Config, svc: Service, p: Port)
    ensures !cfg.IsPodRecord(PortNamePath(cfg, svc, p)) && PortNamePath(cfg, svc, p) != []
  {
  }
}
