/** What holds after every run of service and endpoint events, in any interleaving of their commits. */
module KubeDnsRuns {
  import opened Text
  import opened TreeCaches
  import opened KubeDnsModel

  // ---- Records live below services only ----

  /** Every record sits at or below the node of some service. */
  ghost predicate BelowServices(cfg: Config, f: Flat) {
    forall l :: l in f ==> exists ns, name :: Below(cfg.ServicePath(ns, name), l.path)
  }

  lemma ApplyKeepsBelowServices(cfg: Config, s: State, c: Commit)
    requires BelowServices(cfg, s.records)
    ensures BelowServices(cfg, Apply(cfg, s, c).records)
  {
  }

  lemma {:induction false} RunsStayBelowServices(cfg: Config, commits: seq<Commit>)
    ensures BelowServices(cfg, Run(cfg, EMPTY, commits).records)
  {
    if commits != [] {
      var n := |commits| - 1;
      RunsStayBelowServices(cfg, commits[..n]);
      ApplyKeepsBelowServices(cfg, Run(cfg, EMPTY, commits[..n]), commits[n]);
    }
  }

  lemma {:induction false} WalkDepth(labels: seq<string>)
    ensures Depth(Walk(labels)) == |labels|
  {
    if labels != [] { WalkDepth(Front(labels)); }
  }

  lemma ServiceDepth(cfg: Config, ns: string, name: string)
    ensures Depth(cfg.ServicePath(ns, name)) == Depth(Walk(cfg.DomainPath())) + 3
  {
    hide Walk;
    var d := Walk(cfg.DomainPath());
    assert Depth(Sub(Sub(d, "svc"), ns)) == Depth(d) + 2;
  }

  /** No node above the service level ever holds an entry. */
  lemma NoEntryAboveServiceDepth(cfg: Config, commits: seq<Commit>, l: Loc)
    requires l in Run(cfg, EMPTY, commits).records
    ensures Depth(l.path) >= |cfg.DomainPath()| + 3
  {
    RunsStayBelowServices(cfg, commits);
    var ns, name :| Below(cfg.ServicePath(ns, name), l.path);
    ServiceDepth(cfg, ns, name);
    DeeperBelow(cfg.ServicePath(ns, name), l.path);
    WalkDepth(cfg.DomainPath());
  }

  // ---- An event touches the records of its own service only ----

  lemma {:induction false} OneAncestorPerDepth(a: Path, b: Path, p: Path)
    requires Below(a, p) && Below(b, p) && Depth(a) == Depth(b)
    ensures a == b
  {
    if p == a {
      if p != b { DeeperBelow(b, p.up); }
    } else if p == b {
      DeeperBelow(a, p.up);
    } else {
      OneAncestorPerDepth(a, b, p.up);
    }
  }

  lemma ServicesAreApart(cfg: Config, ns: string, name: string, ns': string, name': string, p: Path)
    requires (ns, name) != (ns', name') && Below(cfg.ServicePath(ns, name), p)
    ensures !Below(cfg.ServicePath(ns', name'), p)
  {
    if Below(cfg.ServicePath(ns', name'), p) {
      OneAncestorPerDepth(cfg.ServicePath(ns, name), cfg.ServicePath(ns', name'), p);
    }
  }

  predicate For(c: Commit, ns: string, name: string) {
    c.svc.ns == ns && c.svc.name == name
  }

  /** `f` and `g` agree on everything at or below `base`. */
  ghost predicate AgreeBelow(f: Flat, g: Flat, base: Path) {
    forall l: Loc :: Below(base, l.path) ==> (l in f <==> l in g) && (l in f ==> f[l] == g[l])
  }

  lemma ApplyLeavesOthers(cfg: Config, s: State, c: Commit, ns: string, name: string)
    requires !For(c, ns, name)
    ensures AgreeBelow(s.records, Apply(cfg, s, c).records, cfg.ServicePath(ns, name))
  {
    forall l: Loc | Below(cfg.ServicePath(ns, name), l.path) ensures !Below(cfg.ServicePath(c.svc.ns, c.svc.name), l.path) {
      ServicesAreApart(cfg, ns, name, c.svc.ns, c.svc.name, l.path);
    }
  }

  /** However long a run goes on without an event for a service, the records of that service stay. */
  lemma {:induction false} RunsLeaveOthers(cfg: Config, s: State, commits: seq<Commit>, ns: string, name: string)
    requires forall i :: 0 <= i < |commits| ==> !For(commits[i], ns, name)
    ensures AgreeBelow(s.records, Run(cfg, s, commits).records, cfg.ServicePath(ns, name))
  {
    if commits != [] {
      var n := |commits| - 1;
      RunsLeaveOthers(cfg, s, commits[..n], ns, name);
      ApplyLeavesOthers(cfg, Run(cfg, s, commits[..n]), commits[n], ns, name);
    }
  }

  lemma {:induction false} RunAppend(cfg: Config, s: State, a: seq<Commit>, b: seq<Commit>)
    ensures Run(cfg, s, a + b) == Run(cfg, Run(cfg, s, a), b)
  {
    if b == [] {
      assert a + b == a;
    } else {
      assert (a + b)[..|a + b| - 1] == a + b[..|b| - 1];
      RunAppend(cfg, s, a, b[..|b| - 1]);
    }
  }

  // ---- The name of a portal service ----

  /** In the subtree of a portal service, the only entry at its root is the cluster IP. */
  ghost predicate RootHoldsOnly(f: Flat, key: string, host: string) {
    && Loc(Root, key) in f && f[Loc(Root, key)].host == host
    && forall l :: l in f && l.path == Root ==> l.key == key
  }

  lemma {:induction false} PortsStayOffTheRoot(cfg: Config, svc: Service, first: Put, ports: seq<Port>, key: string,
                                               labels: seq<string>)
    requires first.path == []
    ensures RootHoldsOnly(Fill([first] + PortPuts(cfg, svc, ports, key, labels)), first.key, first.rec.host)
  {
    if ports == [] {
      assert [first] + PortPuts(cfg, svc, ports, key, labels) == [first];
      assert [first][..0] == [];
    } else {
      var n := |ports| - 1;
      var p := ports[n];
      PortsStayOffTheRoot(cfg, svc, first, ports[..n], key, labels);
      var before := [first] + PortPuts(cfg, svc, ports[..n], key, labels);
      if p.name != "" && p.protocol != "" {
        var put := PutAt(cfg, svc, PortPath(p), key, cfg.SrvRecord(svc, p.port, labels));
        assert [first] + PortPuts(cfg, svc, ports, key, labels) == before + [put];
        assert (before + [put])[..|before|] == before;
      } else {
        assert [first] + PortPuts(cfg, svc, ports, key, labels) == before;
      }
    }
  }

  predicate Plain(labels: seq<string>) {
    forall i :: 0 <= i < |labels| ==> labels[i] != "*"
  }

  lemma {:induction false} PlainStem(stem: seq<string>, p: Path)
    requires Plain(stem)
    ensures StemMatch(stem, p) <==> p == Walk(stem)
  {
    if stem != [] && p.Sub? { PlainStem(Front(stem), p.up); }
  }

  /** The labels under which a service is looked up. */
  function NamePath(cfg: Config, svc: Service): seq<string> {
    cfg.DomainPath() + ["svc", svc.ns, svc.name]
  }

  /** The one place that answers `q` is `l`. */
  ghost predicate OnlyAnswer(f: Flat, q: seq<string>, l: Loc) {
    l in f && forall m :: m in f ==> (Answers(f, q, m) <==> m == l)
  }

  /** A plain service name is answered by the entries at the root of that service's subtree. */
  lemma PlainNameAnswers(cfg: Config, f: Flat, svc: Service, l: Loc)
    requires BelowServices(cfg, f) && Plain(NamePath(cfg, svc)) && l in f
    ensures Answers(f, NamePath(cfg, svc), l) <==> l.path == cfg.ServicePath(svc.ns, svc.name)
  {
    var q := NamePath(cfg, svc);
    var stem := cfg.DomainPath() + ["svc", svc.ns];
    assert Front(q) == stem && Last(q) == svc.name;
    WalkTwo(cfg.DomainPath(), "svc", svc.ns);
    PlainStem(stem, l.path);
    if l.path.Sub? { PlainStem(stem, l.path.up); }
    NoRecordAt(cfg, f, Walk(stem), l.key);
    NoRecordAt(cfg, f, Walk(stem), svc.name);
  }

  lemma NoRecordAt(cfg: Config, f: Flat, p: Path, key: string)
    requires BelowServices(cfg, f) && Depth(p) < Depth(Walk(cfg.DomainPath())) + 3
    ensures Loc(p, key) !in f
  {
    if Loc(p, key) in f {
      var ns, name :| Below(cfg.ServicePath(ns, name), Loc(p, key).path);
      ServiceDepth(cfg, ns, name);
      DeeperBelow(cfg.ServicePath(ns, name), p);
    }
  }

  /** From the event that adds a portal service until the next event for it, whatever else happens,
      its plain name is answered by exactly one record, and that record's host is the cluster IP. */
  lemma PortalNameIsAnswered(cfg: Config, before: seq<Commit>, svc: Service, after: seq<Commit>)
    requires Plain(NamePath(cfg, svc))
    requires forall i :: 0 <= i < |after| ==> !For(after[i], svc.ns, svc.name)
    ensures var f := Run(cfg, EMPTY, before + [Portal(svc)] + after).records;
            var l := Loc(cfg.ServicePath(svc.ns, svc.name), cfg.LabelOf(svc.clusterIP));
            OnlyAnswer(f, NamePath(cfg, svc), l) && f[l].host == svc.clusterIP
  {
    var s0 := Run(cfg, EMPTY, before);
    var s1 := Apply(cfg, s0, Portal(svc));
    assert (before + [Portal(svc)])[..|before|] == before;
    assert Run(cfg, EMPTY, before + [Portal(svc)]) == s1;
    RunAppend(cfg, EMPTY, before + [Portal(svc)], after);
    var f := Run(cfg, s1, after).records;
    RunsStayBelowServices(cfg, before + [Portal(svc)] + after);
    RunsLeaveOthers(cfg, s1, after, svc.ns, svc.name);
    PortalHoldsOnly(cfg, s0, svc);
    forall m | m in f ensures Answers(f, NamePath(cfg, svc), m) <==> m.path == cfg.ServicePath(svc.ns, svc.name) {
      PlainNameAnswers(cfg, f, svc, m);
    }
  }

  lemma PortalHoldsOnly(cfg: Config, s: State, svc: Service)
    ensures var f, base := Apply(cfg, s, Portal(svc)).records, cfg.ServicePath(svc.ns, svc.name);
            var l := Loc(base, cfg.LabelOf(svc.clusterIP));
            && l in f && f[l].host == svc.clusterIP
            && forall m :: m in f && m.path == base ==> m == l
  {
    var recordLabel := cfg.LabelOf(svc.clusterIP);
    PortsStayOffTheRoot(cfg, svc, PutAt(cfg, svc, [], recordLabel, cfg.SkyMsg(svc.clusterIP, 0)), svc.ports, recordLabel, []);
  }

  // ---- The two maps keyed by cluster IP ----

  /** The reverse map and the service map have the same keys, and each reverse record names the
      service stored under that IP. */
  ghost predicate InStep(cfg: Config, s: State) {
    && s.reverse.Keys == s.byIP.Keys
    && forall ip :: ip in s.byIP ==>
         s.byIP[ip].clusterIP == ip && s.reverse[ip] == cfg.SkyMsg(cfg.ServiceFQDN(s.byIP[ip]), 0)
  }

  lemma {:induction false} RunsStayInStep(cfg: Config, commits: seq<Commit>)
    ensures InStep(cfg, Run(cfg, EMPTY, commits))
  {
    if commits != [] {
      RunsStayInStep(cfg, commits[..|commits| - 1]);
    }
  }

  /** Until its IP is taken or removed, a portal service is found under that IP. */
  lemma {:induction false} PortalIPIsKept(cfg: Config, s: State, svc: Service, after: seq<Commit>)
    requires forall i :: 0 <= i < |after| ==> after[i].Headless? || after[i].svc.clusterIP != svc.clusterIP
    ensures var s' := Run(cfg, Apply(cfg, s, Portal(svc)), after);
            && svc.clusterIP in s'.byIP && s'.byIP[svc.clusterIP] == svc
            && svc.clusterIP in s'.reverse && s'.reverse[svc.clusterIP] == cfg.SkyMsg(cfg.ServiceFQDN(svc), 0)
  {
    if after != [] {
      PortalIPIsKept(cfg, s, svc, after[..|after| - 1]);
    }
  }

  /** After every run, a lookup of the reversed form of an address succeeds exactly when a service is stored under that
      address, and then gives the name of that service. */
  lemma ReverseLookupFindsTheService(cfg: Config, commits: seq<Commit>, ip: string)
    ensures var s := Run(cfg, EMPTY, commits);
            ReverseAnswer(s.reverse, ReverseName(ip))
            == if ip in s.byIP then Ok(cfg.SkyMsg(cfg.ServiceFQDN(s.byIP[ip]), 0)) else Err(NoReverseRecord)
  {
    hide Run, ExtractIP, ReverseName, cfg.ServiceFQDN, cfg.SkyMsg;
    RunsStayInStep(cfg, commits);
    ExtractIPUndoesReversal(ip);
  }

  /** So, until its IP is taken or removed, the reversed form of a portal service's IP leads to that service. */
  lemma PortalIPLeadsBack(cfg: Config, before: seq<Commit>, svc: Service, after: seq<Commit>)
    requires forall i :: 0 <= i < |after| ==> after[i].Headless? || after[i].svc.clusterIP != svc.clusterIP
    ensures ReverseAnswer(Run(cfg, EMPTY, before + [Portal(svc)] + after).reverse, ReverseName(svc.clusterIP))
            == Ok(cfg.SkyMsg(cfg.ServiceFQDN(svc), 0))
  {
    hide ExtractIP, ReverseName, cfg.ServiceFQDN, cfg.SkyMsg, ReverseAnswer;
    ReverseLookupFindsTheService(cfg, before + [Portal(svc)] + after, svc.clusterIP);
    assert (before + [Portal(svc)])[..|before|] == before;
    RunAppend(cfg, EMPTY, before + [Portal(svc)], after);
    PortalIPIsKept(cfg, Run(cfg, EMPTY, before), svc, after);
  }

  // ---- Names ----

  /** The name of a service, as far as the domain. */
  function NameFront(svc: Service): string { Join([svc.name, svc.ns, "svc"], ".") }

  lemma ServiceName(cfg: Config, svc: Service)
    ensures cfg.ServiceFQDN(svc) == NameFront(svc) + "." + cfg.domain
  {
    hide Join;
    JoinAppend([svc.name, svc.ns, "svc"], [cfg.domain], ".");
    JoinOne(cfg.domain, ".");
    assert [svc.name, svc.ns, "svc"] + [cfg.domain] == [svc.name, svc.ns, "svc", cfg.domain];
  }

  /** The name of a service leads back to its path, exactly when the domain is not made of dots only. */
  lemma ServiceNameLeadsToPath(cfg: Config, svc: Service)
    requires '.' !in svc.name && '.' !in svc.ns
    ensures Reverse(Segments(cfg.ServiceFQDN(svc))) == NamePath(cfg, svc) <==> TrimRight(cfg.domain, '.') != ""
  {
    hide *;
    var trimmed := TrimRight(cfg.domain, '.');
    ServiceName(cfg, svc);
    TrimRightAppend(NameFront(svc) + ".", cfg.domain, '.');
    NameFrontKeepsItsEnd(svc);
    NameSplits(svc, trimmed);
    PathOfLabels(cfg, svc);
  }

  /** Where the trimmed name splits. */
  lemma NameSplits(svc: Service, trimmed: string)
    requires '.' !in svc.name && '.' !in svc.ns
    ensures Split(NameFront(svc), ".") == [svc.name, svc.ns, "svc"]
    ensures Split(NameFront(svc) + "." + trimmed, ".") == [svc.name, svc.ns, "svc"] + Split(trimmed, ".")
  {
    hide Join, Split;
    var front, labels := [svc.name, svc.ns, "svc"], Split(trimmed, ".");
    SplitFree(trimmed, '.');
    SplitJoin(front, '.');
    JoinAppend(front, labels, ".");
    SplitJoin(front + labels, '.');
  }

  lemma PathOfLabels(cfg: Config, svc: Service)
    ensures var name := cfg.ServiceFQDN(svc);
            var labels := Split(TrimRight(cfg.domain, '.'), ".");
            && (Segments(name) == [svc.name, svc.ns, "svc"] + labels ==> Reverse(Segments(name)) == NamePath(cfg, svc))
            && (Segments(name) == [svc.name, svc.ns, "svc"] ==> Reverse(Segments(name)) != NamePath(cfg, svc))
            && Segments(name) == Split(TrimRight(name, '.'), ".")
  {
    hide Split, TrimRight;
    hide cfg.ServiceFQDN;
    var labels := Split(TrimRight(cfg.domain, '.'), ".");
    var front := [svc.name, svc.ns, "svc"];
    assert Reverse(front + labels) == Reverse(labels) + ["svc", svc.ns, svc.name];
    assert |Reverse(front)| < |NamePath(cfg, svc)|;
  }

  lemma NameFrontKeepsItsEnd(svc: Service)
    ensures TrimRight(NameFront(svc) + ".", '.') == NameFront(svc)
  {
    hide Join;
    TrimRightAppend(NameFront(svc), ".", '.');
    JoinLast([svc.name, svc.ns, "svc"], ".");
  }

  /** So, after any run, a query for the service name of a live portal service returns one record,
      whose host is the cluster IP, whatever order the tree is walked in. */
  lemma PortalQueryHasOneAnswer(cfg: Config, before: seq<Commit>, svc: Service, after: seq<Commit>,
                                local: Result<seq<Record>>, locs: seq<Loc>)
    requires '.' !in svc.name && '.' !in svc.ns && Plain(NamePath(cfg, svc)) && TrimRight(cfg.domain, '.') != ""
    requires forall i :: 0 <= i < |after| ==> !For(after[i], svc.ns, svc.name)
    requires LocalAnswer(cfg, Run(cfg, EMPTY, before + [Portal(svc)] + after).records,
                         Reverse(Segments(cfg.ServiceFQDN(svc))), false, local, locs)
    ensures !cfg.IsFederationQuery(Segments(cfg.ServiceFQDN(svc)))
    ensures local.Ok? && |local.value| == 1 && local.value[0].host == svc.clusterIP
  {
    hide Run, Answers, Segments, Lists;
    var f := Run(cfg, EMPTY, before + [Portal(svc)] + after).records;
    var l := Loc(cfg.ServicePath(svc.ns, svc.name), cfg.LabelOf(svc.clusterIP));
    ServiceNameLeadsToPath(cfg, svc);
    PortalNameIsAnswered(cfg, before, svc, after);
    OneAnswerIsListedOnce(f, NamePath(cfg, svc), l, locs, local.value);
  }

  lemma OneAnswerIsListedOnce(f: Flat, q: seq<string>, l: Loc, locs: seq<Loc>, recs: seq<Record>)
    requires OnlyAnswer(f, q, l) && Lists(f, locs, recs) && forall m :: m in locs <==> m in f && Answers(f, q, m)
    ensures |recs| == 1 && recs[0] == f[l]
  {
    hide Answers;
    assert l in locs;
    assert forall i :: 0 <= i < |locs| ==> locs[i] in locs;
    assert |locs| >= 2 ==> locs[0] == locs[1];
  }
}
