/** Federated queries, pod queries and event handlers, from the text of a name to the answer, after every run. */
module KubeDnsQueries {
  import opened Text
  import opened Wrappers
  import opened TreeCaches
  import opened KubeDnsModel
  import opened KubeDnsRuns
  import opened KubeDnsAnswers

  // ---- Names under the domain ----

  /** Labels in front of the domain come off again, unless nothing of the domain is left. */
  lemma LabelsUnderDomain(cfg: Config, labels: seq<string>)
    requires labels != [] && Free(labels, '.') && TrimRight(cfg.domain, '.') != ""
    ensures Segments(Join(labels, ".") + "." + cfg.domain) == labels + Reverse(cfg.DomainPath())
  {
    hide TrimRight, Split, Join;
    var front, trimmed := Join(labels, ".") + ".", TrimRight(cfg.domain, '.');
    TrimRightAppend(front, cfg.domain, '.');
    SplitFree(trimmed, '.');
    JoinAppend(labels, Split(trimmed, "."), ".");
    ReverseReverse(Split(trimmed, "."));
    SplitJoin(labels + Split(trimmed, "."), '.');
  }

  // ---- Federated queries ----

  /** The name of a service of a federation: nginx.default.myfed.svc.cluster.local. */
  function FederatedName(cfg: Config, svc: Service, federation: string): string {
    Join([svc.name, svc.ns, federation, "svc"], ".") + "." + cfg.domain
  }

  lemma FederatedSegments(cfg: Config, svc: Service, federation: string)
    requires '.' !in svc.name && '.' !in svc.ns && '.' !in federation && TrimRight(cfg.domain, '.') != ""
    ensures Segments(FederatedName(cfg, svc, federation))
            == [svc.name, svc.ns, federation, "svc"] + Reverse(cfg.DomainPath())
  {
    hide TrimRight, Segments, Join, cfg.DomainPath;
    LabelsUnderDomain(cfg, [svc.name, svc.ns, federation, "svc"]);
  }

  /** Such a name is a federated query exactly when its labels are valid and the federation is ours. */
  lemma FederatedNameIff(cfg: Config, svc: Service, federation: string)
    requires '.' !in svc.name && '.' !in svc.ns && '.' !in federation && TrimRight(cfg.domain, '.') != ""
    ensures cfg.IsFederationQuery(Segments(FederatedName(cfg, svc, federation))) <==>
              && IsDNS952Label(svc.name) && IsDNS1123Label(svc.ns) && IsDNS1123Label(federation)
              && federation in cfg.federations
  {
    hide TrimRight, Segments, FederatedName, IsDNS952Label, IsDNS1123Label, cfg.DomainPath;
    FederatedSegments(cfg, svc, federation);
    var path, dp := [svc.name, svc.ns, federation, "svc"] + Reverse(cfg.DomainPath()), cfg.DomainPath();
    assert forall i :: 0 <= i < |dp| ==> path[|path| - i - 1] == Reverse(dp)[|dp| - i - 1] == dp[i];
  }

  /** What a federated query needs to name a service. */
  predicate IsFederated(cfg: Config, svc: Service, federation: string) {
    && IsDNS952Label(svc.name) && IsDNS1123Label(svc.ns) && IsDNS1123Label(federation) && federation in cfg.federations
    && TrimRight(cfg.domain, '.') != "" && Plain(cfg.DomainPath())
  }

  lemma LabelsAreNoWildcards(part: string)
    requires LabelShape(part)
    ensures '.' !in part && part != "*" && part != ""
  {
  }

  lemma FederatedNameReads(cfg: Config, svc: Service, federation: string)
    requires IsFederated(cfg, svc, federation)
    ensures var segments := Segments(FederatedName(cfg, svc, federation));
            cfg.IsFederationQuery(segments) && segments[0] == svc.name && segments[1] == svc.ns && segments[2] == federation
    ensures Plain(NamePath(cfg, svc)) && '.' !in svc.name && '.' !in svc.ns && '.' !in federation
  {
    hide TrimRight, Segments, FederatedName, LabelShape, cfg.DomainPath;
    hide cfg.IsFederationQuery;
    LabelsAreNoWildcards(svc.name);
    LabelsAreNoWildcards(svc.ns);
    LabelsAreNoWildcards(federation);
    FederatedSegments(cfg, svc, federation);
    FederatedNameIff(cfg, svc, federation);
  }

  /** The local name of a service, with its final dot. */
  function DottedName(cfg: Config, svc: Service): string {
    svc.name + "." + svc.ns + ".svc." + TrimRight(cfg.domain, '.') + "."
  }

  lemma LocalNameIsDotted(cfg: Config, svc: Service, segments: seq<string>)
    requires cfg.IsFederationQuery(segments) && segments[0] == svc.name && segments[1] == svc.ns
    ensures LocalName(cfg, segments) == DottedName(cfg, svc)
  {
    hide Join, TrimRight, cfg.IsFederationQuery;
    var domain := TrimRight(cfg.domain, '.');
    JoinAppend([svc.name], [svc.ns, "svc", domain], ".");
    JoinAppend([svc.ns], ["svc", domain], ".");
    JoinAppend(["svc"], [domain], ".");
    JoinOne(svc.name, ".");
    JoinOne(svc.ns, ".");
    JoinOne("svc", ".");
    JoinOne(domain, ".");
    assert [svc.name] + [svc.ns, "svc", domain] == [svc.name, svc.ns, "svc", domain];
    assert [svc.ns] + ["svc", domain] == [svc.ns, "svc", domain] && ["svc"] + [domain] == ["svc", domain];
  }

  /** The store holds an endpoints object of the service with at least one subset. */
  predicate HasEndpoints(endpointsStore: map<string, Object>, svc: Service) {
    var key := svc.ns + "/" + svc.name;
    key in endpointsStore && endpointsStore[key].EndpointsObject? && |endpointsStore[key].endpoints.subsets| > 0
  }

  predicate KeepsIP(after: seq<Commit>, svc: Service) {
    forall i :: 0 <= i < |after| ==> after[i].Headless? || after[i].svc.clusterIP != svc.clusterIP
  }

  /** From the event of a portal service until the next one for it, and while its IP is its own, a federated query for
      it is answered with its local name exactly when it has endpoints, and otherwise with the redirect. */
  lemma FederatedPortalIff(cfg: Config, before: seq<Commit>, svc: Service, after: seq<Commit>, federation: string,
                           endpointsStore: map<string, Object>, zoneRegion: Option<(string, string)>,
                           r: Result<seq<Record>>, local: Result<seq<Record>>, locs: seq<Loc>)
    requires IsFederated(cfg, svc, federation) && NoneFor(after, svc) && KeepsIP(after, svc)
    ensures var segments := Segments(FederatedName(cfg, svc, federation));
            && cfg.IsFederationQuery(segments)
            && (FederatedAnswer(cfg, Run(cfg, EMPTY, before + [Portal(svc)] + after), endpointsStore, segments, zoneRegion,
                                r, local, locs) ==>
                  r == if HasEndpoints(endpointsStore, svc) then Ok([Record(DottedName(cfg, svc), 0, 0, 0, 0, "")])
                       else Redirect(cfg, segments, zoneRegion))
  {
    hide Run, FederatedName, Segments, Answers, Lists, OnlyAnswer, IsDNS952Label, IsDNS1123Label, TrimRight, Redirect,
      LocalName, DottedName, Plain, cfg.ServicePath, cfg.DomainPath, cfg.LabelOf;
    hide cfg.IsFederationQuery;
    var segments, s := Segments(FederatedName(cfg, svc, federation)), Run(cfg, EMPTY, before + [Portal(svc)] + after);
    FederatedNameReads(cfg, svc, federation);
    LocalNameIsDotted(cfg, svc, segments);
    if FederatedAnswer(cfg, s, endpointsStore, segments, zoneRegion, r, local, locs) {
      PortalNameIsAnswered(cfg, before, svc, after);
      var l := Loc(cfg.ServicePath(svc.ns, svc.name), cfg.LabelOf(svc.clusterIP));
      OneAnswerIsListedOnce(s.records, NamePath(cfg, svc), l, locs, local.value);
      PortalStaysAtItsIP(cfg, before, svc, after);
      KeyOfService(cfg, svc, federation);
      assert RecordIsLive(local.value[0], s.byIP, endpointsStore) <==> HasEndpoints(endpointsStore, svc);
    }
  }

  lemma KeyOfService(cfg: Config, svc: Service, federation: string)
    requires IsFederated(cfg, svc, federation)
    ensures StoreKey(svc.ns, svc.name) == svc.ns + "/" + svc.name
  {
  }

  lemma PortalStaysAtItsIP(cfg: Config, before: seq<Commit>, svc: Service, after: seq<Commit>)
    requires KeepsIP(after, svc)
    ensures var s := Run(cfg, EMPTY, before + [Portal(svc)] + after); svc.clusterIP in s.byIP && s.byIP[svc.clusterIP] == svc
  {
    assert (before + [Portal(svc)])[..|before|] == before;
    RunAppend(cfg, EMPTY, before + [Portal(svc)], after);
    PortalIPIsKept(cfg, Run(cfg, EMPTY, before), svc, after);
  }

  /** Likewise for a headless service none of whose endpoints has a cluster IP: what counts is that it has one. */
  lemma FederatedHeadlessIff(cfg: Config, before: seq<Commit>, c: Commit, after: seq<Commit>, federation: string,
                             endpointsStore: map<string, Object>, zoneRegion: Option<(string, string)>,
                             r: Result<seq<Record>>, local: Result<seq<Record>>, locs: seq<Loc>)
    requires c.Headless? && IsFederated(cfg, c.svc, federation) && NoneFor(after, c.svc)
    requires forall a :: a in Addresses(c.subsets) ==> a.ip !in Run(cfg, EMPTY, before + [c] + after).byIP
    ensures var segments := Segments(FederatedName(cfg, c.svc, federation));
            && cfg.IsFederationQuery(segments)
            && (FederatedAnswer(cfg, Run(cfg, EMPTY, before + [c] + after), endpointsStore, segments, zoneRegion,
                                r, local, locs) ==>
                  r == if Addresses(c.subsets) != [] then Ok([Record(DottedName(cfg, c.svc), 0, 0, 0, 0, "")])
                       else Redirect(cfg, segments, zoneRegion))
  {
    hide Run, FederatedName, Segments, Answers, IsDNS952Label, IsDNS1123Label, TrimRight, Redirect, EndpointName,
      LocalName, DottedName, Plain, Addresses, NamePath, cfg.ServicePath, cfg.DomainPath;
    hide cfg.IsFederationQuery;
    var segments, s := Segments(FederatedName(cfg, c.svc, federation)), Run(cfg, EMPTY, before + [c] + after);
    FederatedNameReads(cfg, c.svc, federation);
    LocalNameIsDotted(cfg, c.svc, segments);
    if FederatedAnswer(cfg, s, endpointsStore, segments, zoneRegion, r, local, locs) {
      PathOfSegments(cfg, c.svc, segments);
      HeadlessRecords(cfg, before, c, after, local.value, locs);
      assert forall i :: 0 <= i < |local.value| ==> RecordIsLive(local.value[i], s.byIP, endpointsStore);
      assert local.value != [] ==> RecordIsLive(local.value[0], s.byIP, endpointsStore);
    }
  }

  ghost predicate IsEndpointIP(subsets: seq<Subset>, ip: string) { exists a :: a in Addresses(subsets) && a.ip == ip }

  lemma PathOfSegments(cfg: Config, svc: Service, segments: seq<string>)
    requires cfg.IsFederationQuery(segments) && segments[0] == svc.name && segments[1] == svc.ns
    ensures cfg.DomainPath() + ["svc", segments[1], segments[0]] == NamePath(cfg, svc)
  {
  }

  lemma HeadlessRecords(cfg: Config, before: seq<Commit>, c: Commit, after: seq<Commit>, recs: seq<Record>, locs: seq<Loc>)
    requires c.Headless? && NoneFor(after, c.svc) && Plain(NamePath(cfg, c.svc))
    requires var f := After(cfg, before, c, after);
             Lists(f, locs, recs) && forall l :: l in locs <==> l in f && Answers(f, NamePath(cfg, c.svc), l)
    ensures recs != [] <==> Addresses(c.subsets) != []
    ensures forall i :: 0 <= i < |recs| ==> IsEndpointIP(c.subsets, recs[i].host)
  {
    hide After, Answers, EndpointName, Addresses, NoneFor, Plain, NamePath, cfg.ServicePath;
    var f, base := After(cfg, before, c, after), cfg.ServicePath(c.svc.ns, c.svc.name);
    forall i | 0 <= i < |recs| ensures IsEndpointIP(c.subsets, recs[i].host) {
      assert locs[i] in locs;
      HeadlessNameIsAnswered(cfg, before, c, after, locs[i]);
      HeadlessEntry(cfg, before, c, after, locs[i].key);
    }
    if recs != [] {
      assert IsEndpointIP(c.subsets, recs[0].host);
    }
    if Addresses(c.subsets) != [] {
      var a := Addresses(c.subsets)[0];
      assert a in Addresses(c.subsets);
      HeadlessNameIsAnswered(cfg, before, c, after, Loc(base, EndpointName(cfg, a, c.podHostnames)));
      assert Loc(base, EndpointName(cfg, a, c.podHostnames)) in locs;
    }
  }

  // ---- Pods ----

  /** A pod's name label: its IP with dashes for dots. */
  function DotsToDashes(ip: string): string {
    seq(|ip|, i requires 0 <= i < |ip| => if ip[i] == '.' then '-' else ip[i])
  }

  function PodName(cfg: Config, ip: string, ns: string): string {
    Join([DotsToDashes(ip), ns, "pod"], ".") + "." + cfg.domain
  }

  /** Whatever the records, a query for a pod's name is answered with its IP, if that is one, and fails otherwise. */
  lemma PodNameGivesItsIP(cfg: Config, f: Flat, ip: string, ns: string, exact: bool, r: Result<seq<Record>>, locs: seq<Loc>)
    requires '-' !in ip && '.' !in ns && ip != "*" && ns != "*" && TrimRight(cfg.domain, '.') != "" && "*" !in cfg.DomainPath()
    requires LocalAnswer(cfg, f, Reverse(Segments(PodName(cfg, ip, ns))), exact, r, locs)
    ensures !cfg.IsFederationQuery(Segments(PodName(cfg, ip, ns)))
    ensures if cfg.parsesAsIP(ip) then r.Ok? && |r.value| == 1 && r.value[0].host == ip && r.value[0].port == 0
            else r == Err(InvalidIP)
  {
    hide TrimRight, Segments, Join, Answers, Lists, cfg.DomainPath;
    var dashed, labels := DotsToDashes(ip), [DotsToDashes(ip), ns, "pod"];
    assert '.' !in dashed;
    LabelsUnderDomain(cfg, labels);
    var dp := cfg.DomainPath();
    ReverseReverse(dp);
    var path := dp + ["pod", ns, dashed];
    assert Reverse(labels + Reverse(dp)) == path;
    assert DashesToDots(dashed) == ip;
    assert dashed != "*" by { assert dashed == "*" ==> DashesToDots("*") == ip == "*"; }
    assert Last(path) == dashed && path[|dp|] == "pod" && "*" !in path;
  }

  // ---- From handlers to answers ----

  /** After a run, an event of a service, and more commits. */
  ghost function AfterService(cfg: Config, before: seq<Commit>, obj: Object, endpointsStore: map<string, Object>,
                              after: seq<Commit>): State
  {
    Run(cfg, ApplyOption(cfg, Run(cfg, EMPTY, before), ServiceCommit(obj, endpointsStore)), after)
  }

  /** After a run, an event of an endpoints object, and more commits. */
  ghost function AfterEndpoints(cfg: Config, before: seq<Commit>, obj: Object, servicesStore: map<string, Object>,
                                after: seq<Commit>): State
  {
    Run(cfg, ApplyOption(cfg, Run(cfg, EMPTY, before), EndpointsCommit(obj, servicesStore)), after)
  }

  lemma CommitInTheMiddle(cfg: Config, before: seq<Commit>, c: Commit, after: seq<Commit>)
    ensures Run(cfg, Apply(cfg, Run(cfg, EMPTY, before), c), after) == Run(cfg, EMPTY, before + [c] + after)
  {
    assert (before + [c])[..|before|] == before;
    RunAppend(cfg, EMPTY, before + [c], after);
  }

  /** What is needed for the name of a service to be looked up. */
  predicate CanBeNamed(cfg: Config, svc: Service) {
    '.' !in svc.name && '.' !in svc.ns && svc.ns != "" && Plain(NamePath(cfg, svc)) && TrimRight(cfg.domain, '.') != ""
  }

  /** Once a service with a cluster IP has been added, its name is answered with that IP. */
  lemma AddedPortalIsAnswered(cfg: Config, before: seq<Commit>, svc: Service, endpointsStore: map<string, Object>,
                              after: seq<Commit>, local: Result<seq<Record>>, locs: seq<Loc>)
    requires CanBeNamed(cfg, svc) && NoneFor(after, svc) && svc.clusterIP != "" && svc.clusterIP != "None"
    requires LocalAnswer(cfg, AfterService(cfg, before, ServiceObject(svc), endpointsStore, after).records,
                         Reverse(Segments(cfg.ServiceFQDN(svc))), false, local, locs)
    ensures local.Ok? && |local.value| == 1 && local.value[0].host == svc.clusterIP
  {
    hide Run, Segments, LocalAnswer, cfg.ServiceFQDN, Plain, TrimRight;
    CommitInTheMiddle(cfg, before, Portal(svc), after);
    PortalQueryHasOneAnswer(cfg, before, svc, after, local, locs);
  }

  /** The IPs of the records are those of endpoints, and all of them when the endpoints have names of their own. */
  ghost predicate ListsEndpoints(cfg: Config, subsets: seq<Subset>, podHostnames: map<string, string>, recs: seq<Record>) {
    && (forall i :: 0 <= i < |recs| ==> IsEndpointIP(subsets, recs[i].host))
    && (OwnNames(cfg, Addresses(subsets), podHostnames) ==>
          forall a :: a in Addresses(subsets) ==> exists i :: 0 <= i < |recs| && recs[i].host == a.ip)
  }

  lemma HeadlessIsListed(cfg: Config, before: seq<Commit>, c: Commit, after: seq<Commit>,
                         local: Result<seq<Record>>, locs: seq<Loc>)
    requires c.Headless? && CanBeNamed(cfg, c.svc) && NoneFor(after, c.svc)
    requires LocalAnswer(cfg, After(cfg, before, c, after), Reverse(Segments(cfg.ServiceFQDN(c.svc))), false, local, locs)
    ensures local.Ok? && ListsEndpoints(cfg, c.subsets, c.podHostnames, local.value)
  {
    hide After, Segments, LocalAnswer, EndpointName, Addresses, OwnNames, Lists, cfg.ServiceFQDN;
    HeadlessQueryListsEndpoints(cfg, before, c, after, local, locs);
    SameNumber(After(cfg, before, c, after), locs, local.value);
    forall i | 0 <= i < |local.value| ensures IsEndpointIP(c.subsets, local.value[i].host) {
      assert OfEndpoint(cfg, c, locs[i].key, local.value[i].host);
    }
  }

  lemma SameNumber(f: Flat, locs: seq<Loc>, recs: seq<Record>)
    requires Lists(f, locs, recs)
    ensures |locs| == |recs|
  {
  }

  /** Once a service without a cluster IP has been added, its name is answered with the endpoints that the store has
      for it. */
  lemma AddedHeadlessIsAnswered(cfg: Config, before: seq<Commit>, svc: Service, endpointsStore: map<string, Object>,
                                e: Endpoints, after: seq<Commit>, local: Result<seq<Record>>, locs: seq<Loc>)
    requires CanBeNamed(cfg, svc) && NoneFor(after, svc) && (svc.clusterIP == "" || svc.clusterIP == "None")
    requires var key := svc.ns + "/" + svc.name; key in endpointsStore && endpointsStore[key] == EndpointsObject(e)
    requires e.podHostnames.Some?
    requires LocalAnswer(cfg, AfterService(cfg, before, ServiceObject(svc), endpointsStore, after).records,
                         Reverse(Segments(cfg.ServiceFQDN(svc))), false, local, locs)
    ensures local.Ok? && ListsEndpoints(cfg, e.subsets, e.podHostnames.value, local.value)
  {
    hide Run, Segments, LocalAnswer, ListsEndpoints, cfg.ServiceFQDN, Plain, TrimRight;
    var c := Headless(svc, e.subsets, e.podHostnames.value);
    CommitInTheMiddle(cfg, before, c, after);
    HeadlessIsListed(cfg, before, c, after, local, locs);
  }

  /** Once endpoints of a stored service without a cluster IP have come in, its name is answered with them. */
  lemma NewEndpointsAreAnswered(cfg: Config, before: seq<Commit>, e: Endpoints, servicesStore: map<string, Object>,
                                svc: Service, after: seq<Commit>, local: Result<seq<Record>>, locs: seq<Loc>)
    requires CanBeNamed(cfg, svc) && NoneFor(after, svc) && (svc.clusterIP == "" || svc.clusterIP == "None")
    requires var key := svc.ns + "/" + svc.name; key in servicesStore && servicesStore[key] == ServiceObject(svc)
    requires e.ns == svc.ns && e.name == svc.name && e.podHostnames.Some?
    requires LocalAnswer(cfg, AfterEndpoints(cfg, before, EndpointsObject(e), servicesStore, after).records,
                         Reverse(Segments(cfg.ServiceFQDN(svc))), false, local, locs)
    ensures local.Ok? && ListsEndpoints(cfg, e.subsets, e.podHostnames.value, local.value)
  {
    hide Run, Segments, LocalAnswer, ListsEndpoints, cfg.ServiceFQDN, Plain, TrimRight;
    var c := Headless(svc, e.subsets, e.podHostnames.value);
    CommitInTheMiddle(cfg, before, c, after);
    HeadlessIsListed(cfg, before, c, after, local, locs);
  }

  /** An event without consequences leaves the run as it was: an object of another kind, a service without cluster IP or
      endpoints, endpoints of no stored service or of one with a cluster IP, and hostnames that do not decode. */
  lemma IgnoredServices(cfg: Config, before: seq<Commit>, obj: Object, endpointsStore: map<string, Object>, after: seq<Commit>)
    requires obj.ServiceObject? ==>
               var svc := obj.service;
               var key := svc.ns + "/" + svc.name;
               && svc.ns != "" && (svc.clusterIP == "" || svc.clusterIP == "None")
               && (key in endpointsStore && endpointsStore[key].EndpointsObject? ==>
                     endpointsStore[key].endpoints.podHostnames.None?)
    ensures AfterService(cfg, before, obj, endpointsStore, after) == Run(cfg, EMPTY, before + after)
  {
    hide Run;
    RunAppend(cfg, EMPTY, before, after);
  }

  lemma IgnoredEndpoints(cfg: Config, before: seq<Commit>, obj: Object, servicesStore: map<string, Object>, after: seq<Commit>)
    requires obj.EndpointsObject? ==>
               var e := obj.endpoints;
               var key := e.ns + "/" + e.name;
               && e.ns != ""
               && (key in servicesStore && servicesStore[key].ServiceObject? ==>
                     || e.podHostnames.None?
                     || (servicesStore[key].service.clusterIP != "" && servicesStore[key].service.clusterIP != "None"))
    ensures AfterEndpoints(cfg, before, obj, servicesStore, after) == Run(cfg, EMPTY, before + after)
  {
    hide Run;
    RunAppend(cfg, EMPTY, before, after);
  }

  // ---- Removed services ----

  lemma NothingBelow(cfg: Config, before: seq<Commit>, svc: Service, after: seq<Commit>, l: Loc)
    requires NoneFor(after, svc) && Below(cfg.ServicePath(svc.ns, svc.name), l.path)
    ensures l !in Run(cfg, EMPTY, before + [Remove(svc)] + after).records
  {
    hide Run, Below, cfg.ServicePath;
    var s := Apply(cfg, Run(cfg, EMPTY, before), Remove(svc));
    CommitInTheMiddle(cfg, before, Remove(svc), after);
    RunsLeaveOthers(cfg, s, after, svc.ns, svc.name);
    assert l !in s.records;
  }

  /** Once a service has been removed, a query for its name finds nothing until the next event for it. */
  lemma RemovedServiceIsGone(cfg: Config, before: seq<Commit>, svc: Service, after: seq<Commit>,
                             local: Result<seq<Record>>, locs: seq<Loc>)
    requires CanBeNamed(cfg, svc) && NoneFor(after, svc)
    requires LocalAnswer(cfg, Run(cfg, EMPTY, before + [Remove(svc)] + after).records,
                         Reverse(Segments(cfg.ServiceFQDN(svc))), false, local, locs)
    ensures local == Ok([])
  {
    hide Run, Answers, Segments, Plain, TrimRight, Below, cfg.ServicePath, cfg.ServiceFQDN;
    var f, base := Run(cfg, EMPTY, before + [Remove(svc)] + after).records, cfg.ServicePath(svc.ns, svc.name);
    ServiceNameLeadsToPath(cfg, svc);
    RunsStayBelowServices(cfg, before + [Remove(svc)] + after);
    if locs != [] {
      var l := locs[0];
      assert l in locs;
      PlainNameAnswers(cfg, f, svc, l);
      BelowItself(base);
      NothingBelow(cfg, before, svc, after, l);
    }
  }

  lemma BelowItself(p: Path)
    ensures Below(p, p)
  {
  }

  /** Nor does a reverse lookup of its cluster IP, until another service takes that. */
  lemma {:induction false} RemovedIPIsGone(cfg: Config, before: seq<Commit>, svc: Service, after: seq<Commit>)
    requires forall i :: 0 <= i < |after| && after[i].Portal? ==> after[i].svc.clusterIP != svc.clusterIP
    ensures ReverseAnswer(Run(cfg, EMPTY, before + [Remove(svc)] + after).reverse, ReverseName(svc.clusterIP))
            == Err(NoReverseRecord)
  {
    hide ExtractIP, ReverseName;
    CommitInTheMiddle(cfg, before, Remove(svc), after);
    StaysRemoved(cfg, Apply(cfg, Run(cfg, EMPTY, before), Remove(svc)), svc.clusterIP, after);
    ExtractIPUndoesReversal(svc.clusterIP);
  }

  lemma {:induction false} StaysRemoved(cfg: Config, s: State, ip: string, after: seq<Commit>)
    requires ip !in s.reverse && forall i :: 0 <= i < |after| && after[i].Portal? ==> after[i].svc.clusterIP != ip
    ensures ip !in Run(cfg, s, after).reverse
  {
    if after != [] { StaysRemoved(cfg, s, ip, after[..|after| - 1]); }
  }

  // ---- Wildcards among pods ----

  lemma {:induction false} StemDepth(stem: seq<string>, p: Path)
    requires StemMatch(stem, p)
    ensures Depth(p) == |stem|
  {
    if stem != [] { StemDepth(Front(stem), p.up); }
  }

  /** Pods have no records: a query with a wildcard below `pod` finds nothing, after any run. */
  lemma WildcardPodsFindNothing(cfg: Config, commits: seq<Commit>, ns: string, pod: string,
                                local: Result<seq<Record>>, locs: seq<Loc>)
    requires ns == "*" || pod == "*"
    requires LocalAnswer(cfg, Run(cfg, EMPTY, commits).records, cfg.DomainPath() + ["pod", ns, pod], false, local, locs)
    ensures local == Ok([])
  {
    hide Run, Walk, StemMatch, Below;
    var f, q := Run(cfg, EMPTY, commits).records, cfg.DomainPath() + ["pod", ns, pod];
    assert q[|cfg.DomainPath()| + 1] == ns && q[|cfg.DomainPath()| + 2] == pod;
    assert "*" in q;
    if locs != [] {
      var l := locs[0];
      assert l in locs;
      NoEntryAboveServiceDepth(cfg, commits, l);
      RunsStayBelowServices(cfg, commits);
      var stem := cfg.DomainPath() + ["pod", ns];
      assert Front(q) == stem && Last(q) == pod;
      if StemMatch(stem, l.path) { StemDepth(stem, l.path); }
      assert l.path.Sub? && StemMatch(stem, l.path.up);
      StemDepth(stem, l.path.up);
      PodsAreNotServices(cfg, f, l, ns);
    }
  }

  lemma PodsAreNotServices(cfg: Config, f: Flat, l: Loc, ns: string)
    requires BelowServices(cfg, f) && l in f && l.path.Sub? && Depth(l.path) == |cfg.DomainPath()| + 3
    ensures !StemMatch(cfg.DomainPath() + ["pod", ns], l.path.up)
  {
    hide Walk;
    var ns', name :| Below(cfg.ServicePath(ns', name), l.path);
    ServiceDepth(cfg, ns', name);
    WalkDepth(cfg.DomainPath());
    SameDepth(cfg.ServicePath(ns', name), l.path);
    var stem := cfg.DomainPath() + ["pod", ns];
    assert Front(stem) == cfg.DomainPath() + ["pod"] && Last(stem) == ns;
    assert Last(Front(stem)) == "pod";
  }

  lemma SameDepth(a: Path, p: Path)
    requires Below(a, p) && Depth(a) == Depth(p)
    ensures a == p
  {
    if a != p { DeeperBelow(a, p.up); }
  }

  // ---- Labels of ports ----

  /** Protocols are spelled in lower case. */
  lemma PortNames(cfg: Config, svc: Service, name: string, number: int)
    ensures PortName(cfg, svc, Port(name, "TCP", number)) == "_" + name + "._tcp." + cfg.ServiceFQDN(svc)
    ensures PortName(cfg, svc, Port(name, "UDP", number)) == "_" + name + "._udp." + cfg.ServiceFQDN(svc)
  {
    hide cfg.ServiceFQDN;
    assert ToLower("TCP") == "tcp" && ToLower("UDP") == "udp";
  }
}
