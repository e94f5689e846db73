/** Self links (pkg/apiserver): the paths that the installer prints for objects, and for exactly which objects the
    request parser undoes them. Prefix, group, version, namespace, resource, name and subresource are any slash-free
    segments. */
module SelfLinks {
  import opened Text
  import opened RequestPaths

  // ---- Printing ----

  /** One step of path cleaning: `out` is what is kept so far. */
  function CleanStep(out: seq<string>, seg: string, rooted: bool): seq<string> {
    if seg == "" || seg == "." then out
    else if seg != ".." then out + [seg]
    else if out != [] && out[|out| - 1] != ".." then out[..|out| - 1]
    else if rooted then out
    else out + [".."]
  }

  function CleanSegments(segs: seq<string>, rooted: bool): seq<string> {
    if segs == [] then []
    else CleanStep(CleanSegments(segs[..|segs| - 1], rooted), segs[|segs| - 1], rooted)
  }

  /** `path.Clean`. */
  function Clean(path: string): string {
    if path == "" then "."
    else
      var body := Join(CleanSegments(Split(path, "/"), path[0] == '/'), "/");
      if path[0] == '/' then "/" + body else if body == "" then "." else body
  }

  /** `path.Join`. */
  function JoinPaths(elems: seq<string>): string {
    if elems == [] then ""
    else if elems[0] != "" then Clean(Join(elems, "/"))
    else JoinPaths(elems[1..])
  }

  /** The root under which a group version is served. */
  function InstallerPrefix(root: string, group: string, version: string): string {
    JoinPaths([root, group, version])
  }

  function Suffix(subresource: string): string {
    if subresource == "" then "" else "/" + subresource
  }

  /** The self link of an object of a namespaced resource. */
  function NamespacedLink(prefix: string, resource: string, subresource: string, ns: string, name: string): string {
    JoinPaths([prefix, "namespaces"]) + "/" + ns + "/" + resource + "/" + name + Suffix(subresource)
  }

  /** The self link of an object of a root-scoped resource, printed from a template. */
  function RootLink(prefix: string, resource: string, subresource: string, name: string): string {
    ReplaceFirst(Template(prefix, resource, subresource), "{name}", name)
  }

  function Template(prefix: string, resource: string, subresource: string): string {
    JoinPaths([prefix, resource + "/{name}" + Suffix(subresource)])
  }

  function ReplaceFirst(s: string, old_: string, new_: string): string
    requires old_ != []
  {
    var i := Index(s, old_);
    if i < 0 then s else s[..i] + new_ + s[i + |old_|..]
  }

  // ---- Paths as segments ----

  predicate Segment(s: string) { s != "" && '/' !in s }

  predicate Dots(s: string) { s == "." || s == ".." }

  /** A segment that path cleaning leaves alone. */
  predicate Normal(s: string) { Segment(s) && !Dots(s) }

  predicate AllSegments(segs: seq<string>) { forall i :: 0 <= i < |segs| ==> Segment(segs[i]) }

  predicate AllNormal(segs: seq<string>) { forall i :: 0 <= i < |segs| ==> Normal(segs[i]) }

  function Optional(s: string): seq<string> { if s == "" then [] else [s] }

  /** Each segment after a slash. */
  function Slashed(segs: seq<string>): string {
    if segs == [] then "" else "/" + segs[0] + Slashed(segs[1..])
  }

  /** A clean path with these segments. */
  function Rooted(segs: seq<string>): string { if segs == [] then "/" else Slashed(segs) }

  lemma {:induction false} SlashedAppend(a: seq<string>, b: seq<string>)
    ensures Slashed(a + b) == Slashed(a) + Slashed(b)
  {
    if a == [] {
      assert a + b == b;
    } else {
      SlashedAppend(a[1..], b);
      assert (a + b)[1..] == a[1..] + b && (a + b)[0] == a[0];
      assert "/" + a[0] + (Slashed(a[1..]) + Slashed(b)) == "/" + a[0] + Slashed(a[1..]) + Slashed(b);
    }
  }

  lemma {:induction false} SlashedIsJoin(segs: seq<string>)
    requires segs != []
    ensures Slashed(segs) == "/" + Join(segs, "/")
  {
    if |segs| > 1 { SlashedIsJoin(segs[1..]); }
  }

  lemma SlashedOne(seg: string)
    ensures Slashed([seg]) == "/" + seg
  {
    assert [seg][1..] == [];
  }

  lemma SplitSlashed(segs: seq<string>)
    requires segs != [] && Free(segs, '/')
    ensures Split(Slashed(segs), "/") == [""] + segs
  {
    hide Join, Split, Slashed;
    SlashedIsJoin(segs);
    JoinAppend([""], segs, "/");
    JoinOne("", "/");
    assert "" + "/" + Join(segs, "/") == Slashed(segs);
    SplitJoin([""] + segs, '/');
  }

  /** Splitting a printed path gives its segments back. */
  lemma SplitRooted(segs: seq<string>)
    requires AllSegments(segs)
    ensures SplitPath(Rooted(segs)) == segs
  {
    if segs != [] {
      SlashedIsJoin(segs);
      hide Join, Split, Slashed;
      var body := Join(segs, "/");
      JoinLast(segs, "/");
      JoinFirst(segs, "/");
      assert Rooted(segs)[1..] == body;
      var last := segs[|segs| - 1];
      assert segs[0][0] in segs[0] && last[|last| - 1] in last;
      assert TrimLeft(Rooted(segs), '/') == TrimLeft(body, '/') == body;
      assert Trim(Rooted(segs), '/') == body;
      SplitJoin(segs, '/');
    }
  }

  lemma JoinFirst(parts: seq<string>, sep: string)
    requires parts != [] && parts[0] != ""
    ensures Join(parts, sep) != "" && Join(parts, sep)[0] == parts[0][0]
  {
  }

  // ---- Cleaning ----

  lemma {:induction false} CleanIgnoresLeadingEmpty(segs: seq<string>)
    ensures CleanSegments([""] + segs, true) == CleanSegments(segs, true)
  {
    if segs == [] {
      assert [""] + segs == [""] && [""][..0] == [];
    } else {
      CleanIgnoresLeadingEmpty(segs[..|segs| - 1]);
      assert ([""] + segs)[..|segs|] == [""] + segs[..|segs| - 1];
    }
  }

  lemma CleanSnoc(segs: seq<string>, seg: string)
    ensures CleanSegments(segs + [seg], true) == CleanStep(CleanSegments(segs, true), seg, true)
  {
    assert (segs + [seg])[..|segs|] == segs;
  }

  /** Cleaning works on segments. */
  lemma CleanSlashed(segs: seq<string>)
    requires segs != [] && Free(segs, '/')
    ensures Clean(Slashed(segs)) == Rooted(CleanSegments(segs, true))
  {
    var c := CleanSegments(segs, true);
    assert Slashed(segs)[0] == '/';
    SplitSlashed(segs);
    CleanIgnoresLeadingEmpty(segs);
    hide Split, Join, CleanSegments, Slashed;
    if c != [] {
      SlashedIsJoin(c);
    } else {
      JoinOfNone();
    }
  }

  lemma JoinOfNone()
    ensures Join([], "/") == ""
  {
  }

  /** What cleaning leaves is normal. */
  lemma {:induction false} CleanedIsNormal(segs: seq<string>)
    requires Free(segs, '/')
    ensures AllNormal(CleanSegments(segs, true))
  {
    if segs != [] {
      CleanedIsNormal(segs[..|segs| - 1]);
    }
  }

  /** Cleaning leaves normal segments alone. */
  lemma {:induction false} NormalIsClean(segs: seq<string>)
    requires AllNormal(segs)
    ensures CleanSegments(segs, true) == segs
  {
    if segs != [] {
      NormalIsClean(segs[..|segs| - 1]);
      assert Normal(segs[|segs| - 1]);
      assert segs == segs[..|segs| - 1] + [segs[|segs| - 1]];
    }
  }

  /** Joining a relative path onto a clean one cleans the segments of both. */
  lemma JoinOntoRooted(a: seq<string>, b: seq<string>)
    requires AllNormal(a) && b != [] && Free(b, '/')
    ensures JoinPaths([Rooted(a), Join(b, "/")]) == Rooted(CleanSegments(a + b, true))
  {
    hide Clean, CleanSegments, Join, Slashed;
    var s := Join(b, "/");
    JoinAppend([Rooted(a)], [s], "/");
    JoinOne(Rooted(a), "/");
    JoinOne(s, "/");
    assert [Rooted(a)] + [s] == [Rooted(a), s];
    SlashedIsJoin(b);
    RootedIsNotEmpty(a);
    assert Rooted(a) + "/" + s == Rooted(a) + Slashed(b);
    assert JoinPaths([Rooted(a), s]) == Clean(Rooted(a) + Slashed(b));
    if a == [] {
      SlashedAppend([""], b);
      SlashedOne("");
      assert Slashed([""]) == Rooted(a);
      CleanSlashed([""] + b);
      CleanIgnoresLeadingEmpty(b);
      assert a + b == b;
    } else {
      SlashedAppend(a, b);
      CleanSlashed(a + b);
    }
  }

  lemma RootedIsNotEmpty(segs: seq<string>)
    ensures Rooted(segs) != ""
  {
  }

  /** The cleaned API segments. */
  function CleanApi(p: string, group: string, version: string): seq<string> {
    CleanSegments(ApiSegments(p, group, version), true)
  }

  lemma PrefixIsClean(p: string, group: string, version: string)
    requires Segment(p) && '/' !in group && Segment(version)
    ensures InstallerPrefix("/" + p, group, version) == Rooted(CleanApi(p, group, version))
    ensures AllNormal(CleanApi(p, group, version))
  {
    hide Join, Clean, CleanSegments, Slashed;
    JoinAppend(["/" + p], [group, version], "/");
    JoinAppend([p], [group, version], "/");
    JoinOne("/" + p, "/");
    JoinOne(p, "/");
    assert ["/" + p] + [group, version] == ["/" + p, group, version] && [p] + [group, version] == [p, group, version];
    SlashedIsJoin([p, group, version]);
    assert "/" + p + "/" + Join([group, version], "/") == "/" + (p + "/" + Join([group, version], "/"));
    assert InstallerPrefix("/" + p, group, version) == Clean(Slashed([p, group, version]));
    CleanSlashed([p, group, version]);
    CleanWithoutGroup(p, group, version);
    CleanedIsNormal(ApiSegments(p, group, version));
  }

  lemma CleanWithoutGroup(p: string, group: string, version: string)
    ensures CleanSegments([p, group, version], true) == CleanApi(p, group, version)
  {
    hide CleanSegments;
    CleanSnoc([p], group);
    CleanSnoc([p, group], version);
    CleanSnoc([p], version);
    assert [p] + [group] == [p, group] && [p, group] + [version] == [p, group, version] && [p] + [version] == [p, version];
    assert ApiSegments(p, group, version) == if group == "" then [p, version] else [p, group, version];
  }

  // ---- Namespaced objects ----

  lemma NamespacedLinkSegments(api: seq<string>, resource: string, subresource: string, ns: string, name: string)
    requires AllNormal(api)
    ensures NamespacedLink(Rooted(api), resource, subresource, ns, name)
            == Rooted(api + (["namespaces", ns, resource, name] + Optional(subresource)))
  {
    hide Join, JoinPaths, CleanSegments, Slashed;
    var front, item := api + ["namespaces"], [ns, resource, name] + Optional(subresource);
    JoinOne("namespaces", "/");
    JoinOntoRooted(api, ["namespaces"]);
    NormalIsClean(front);
    ItemText(Slashed(front), ns, resource, name, subresource);
    SlashedAppend(front, item);
    assert front + item == api + (["namespaces", ns, resource, name] + Optional(subresource));
  }

  lemma ItemText(s: string, ns: string, resource: string, name: string, subresource: string)
    ensures s + "/" + ns + "/" + resource + "/" + name + Suffix(subresource)
            == s + Slashed([ns, resource, name] + Optional(subresource))
  {
    var tail := Optional(subresource);
    assert Slashed(tail) == Suffix(subresource) by { if subresource != "" { SlashedOne(subresource); } }
    hide Slashed;
    SlashedCons(s, ns, [resource, name] + tail);
    SlashedCons(s + "/" + ns, resource, [name] + tail);
    SlashedCons(s + "/" + ns + "/" + resource, name, tail);
    assert [ns, resource, name] + tail == [ns] + ([resource, name] + tail);
    assert [resource, name] + tail == [resource] + ([name] + tail);
  }

  lemma SlashedCons(front: string, seg: string, rest: seq<string>)
    ensures front + Slashed([seg] + rest) == front + "/" + seg + Slashed(rest)
  {
    assert ([seg] + rest)[1..] == rest;
  }

  /** The resolver knows the prefix, and expects a group exactly when there is one. */
  predicate KnownPrefix(r: Resolver, p: string, group: string) {
    p in r.apiPrefixes && (p in r.grouplessApiPrefixes <==> group == "")
  }

  predicate ApiIsSegments(p: string, group: string, version: string) {
    Segment(p) && (group == "" || Segment(group)) && Segment(version)
  }

  /** A version of two dots takes the segment before it away, and the word `namespaces` that follows takes its place;
      then the namespace stands for the version, and the object for the namespace. */
  predicate Coincidence(api: seq<string>, ns: string, resource: string, name: string, subresource: string)
    requires |api| >= 2
  {
    var n := |api|;
    && AllNormal(api[..n - 2]) && api[n - 2] == "namespaces" && api[n - 1] == ".."
    && ns == ".." && resource == "namespaces" && name == ".."
    && (subresource == "" || subresource in NAMESPACE_SUBRESOURCES)
  }

  /** The self link of a namespaced object leads back to it exactly when its API segments are normal and its resource
      does not have the name of a namespace subresource, or else by that coincidence. */
  lemma NamespacedRoundTrip(r: Resolver, method_: string, p: string, group: string, version: string, ns: string,
                            resource: string, name: string, subresource: string)
    requires KnownPrefix(r, p, group) && ApiIsSegments(p, group, version)
    requires Segment(ns) && Segment(resource) && Segment(name) && (subresource == "" || Segment(subresource))
    ensures var link := NamespacedLink(InstallerPrefix("/" + p, group, version), resource, subresource, ns, name);
            var (info, failed) := ReadRequest(r, method_, link);
            var api := ApiSegments(p, group, version);
            !failed && Addresses(info, p, group, version, ns, resource, name, subresource)
            <==> (AllNormal(api) && resource !in NAMESPACE_SUBRESOURCES) || Coincidence(api, ns, resource, name, subresource)
  {
    hide NamespacedLink, InstallerPrefix, Rooted, SplitPath, ReadRequest, Names, CleanApi, Coincidence;
    var api, clean := ApiSegments(p, group, version), CleanApi(p, group, version);
    var item := ["namespaces", ns, resource, name] + Optional(subresource);
    var link := NamespacedLink(InstallerPrefix("/" + p, group, version), resource, subresource, ns, name);
    PrefixIsClean(p, group, version);
    NamespacedLinkSegments(clean, resource, subresource, ns, name);
    SplitRooted(clean + item);
    PathsThatAddress(r, method_, link, p, group, version, ns, resource, name, subresource);
    if AllNormal(api) {
      ApiIsClean(p, group, version);
      assert (clean + item)[|api|..] == item;
      NamesInNamespace(ns, resource, name, subresource);
      NoCoincidence(api, ns, resource, name, subresource);
    } else {
      DotsInApi(p, group, version, ns, resource, name, subresource);
    }
  }

  lemma ApiIsClean(p: string, group: string, version: string)
    requires AllNormal(ApiSegments(p, group, version))
    ensures CleanApi(p, group, version) == ApiSegments(p, group, version)
  {
    NormalIsClean(ApiSegments(p, group, version));
  }

  lemma NoCoincidence(api: seq<string>, ns: string, resource: string, name: string, subresource: string)
    requires |api| >= 2 && AllNormal(api)
    ensures !Coincidence(api, ns, resource, name, subresource)
  {
    assert Normal(api[|api| - 1]);
  }

  lemma NamesInNamespace(ns: string, resource: string, name: string, subresource: string)
    ensures Names(["namespaces", ns, resource, name] + Optional(subresource), ns, resource, name, subresource)
            <==> resource !in NAMESPACE_SUBRESOURCES
  {
    var item := ["namespaces", ns, resource, name] + Optional(subresource);
    assert item[2..] == [resource, name] + Optional(subresource);
  }

  /** With dots among the API segments, only the coincidence leads back. */
  lemma DotsInApi(p: string, group: string, version: string, ns: string, resource: string, name: string,
                  subresource: string)
    requires ApiIsSegments(p, group, version) && !AllNormal(ApiSegments(p, group, version))
    requires Segment(ns) && Segment(resource) && Segment(name) && (subresource == "" || Segment(subresource))
    ensures var api := ApiSegments(p, group, version);
            var parts := CleanApi(p, group, version) + (["namespaces", ns, resource, name] + Optional(subresource));
            api < parts && Names(parts[|api|..], ns, resource, name, subresource)
            <==> Coincidence(api, ns, resource, name, subresource)
  {
    hide Names, CleanSegments;
    var api, clean := ApiSegments(p, group, version), CleanApi(p, group, version);
    var item := ["namespaces", ns, resource, name] + Optional(subresource);
    CleanedIsNormal(api);
    if Coincidence(api, ns, resource, name, subresource) {
      assert api[..|api| - 1][..|api| - 2] == api[..|api| - 2];
      CoincidenceStarts(api, item);
    }
    if api < clean + item {
      DotsThenNames(api, clean, ns, resource, name, subresource);
    }
  }

  lemma DotsThenNames(api: seq<string>, clean: seq<string>, ns: string, resource: string, name: string,
                      subresource: string)
    requires 2 <= |api| <= 3 && AllSegments(api) && !AllNormal(api) && clean == CleanSegments(api, true) && AllNormal(clean)
    requires Segment(ns) && Segment(resource) && Segment(name) && (subresource == "" || Segment(subresource))
    requires api < clean + (["namespaces", ns, resource, name] + Optional(subresource))
    ensures Names((clean + (["namespaces", ns, resource, name] + Optional(subresource)))[|api|..], ns, resource, name, subresource)
            <==> Coincidence(api, ns, resource, name, subresource)
  {
    hide Names, CleanSegments, AllSegments, AllNormal, Segment;
    var item := ["namespaces", ns, resource, name] + Optional(subresource);
    var n, parts := |api|, clean + item;
    WhereTheDotsAre(api, clean, item);
    if |clean| == n - 2 {
      DotsAfterNamespaces(api, clean, item);
      assert parts[n..] == [resource, name] + Optional(subresource);
      NamesByCoincidence(ns, resource, name, subresource);
    } else {
      assert |clean| == 0 && n == 3;
      assert parts[n..] == [name] + Optional(subresource);
      NamesTooLittle(ns, resource, name, subresource);
      NoDotsInFront(api, clean, item);
    }
  }

  /** The word `namespaces` is where the first dots would have to be. */
  lemma NoDotsInFront(api: seq<string>, clean: seq<string>, item: seq<string>)
    requires |api| == 3 && clean == [] && clean == CleanSegments(api, true) && api < clean + item && item[0] == "namespaces"
    ensures !(AllNormal(api[..1]) && api[1] == "namespaces" && api[2] == "..")
  {
    assert api[0] == (clean + item)[0];
    NamespacesIsNormal();
    if AllNormal(api[..1]) && api[1] == "namespaces" && api[2] == ".." {
      assert AllNormal(api[..2]) by { assert api[..2] == [api[0], api[1]]; }
      DotVersion(api);
    }
  }

  lemma CoincidenceStarts(api: seq<string>, item: seq<string>)
    requires |api| >= 2 && AllNormal(api[..|api| - 1][..|api| - 2])
    requires api[|api| - 2] == "namespaces" && api[|api| - 1] == ".."
    requires |item| > 2 && item[0] == "namespaces" && item[1] == ".."
    ensures api < CleanSegments(api, true) + item
  {
    hide CleanSegments, Normal;
    NamespacesIsNormal();
    OneMoreNormal(api[..|api| - 1]);
    DotVersion(api);
    SharedStart(api, item);
  }

  lemma OneMoreNormal(segs: seq<string>)
    requires segs != [] && AllNormal(segs[..|segs| - 1]) && Normal(segs[|segs| - 1])
    ensures AllNormal(segs)
  {
    hide Normal;
    var front := segs[..|segs| - 1];
    forall i | 0 <= i < |segs| ensures Normal(segs[i]) {
      assert i < |front| ==> segs[i] == front[i];
    }
  }

  lemma SharedStart(a: seq<string>, b: seq<string>)
    requires |a| >= 2 && |b| > 2 && a[|a| - 2] == b[0] && a[|a| - 1] == b[1]
    ensures a < a[..|a| - 2] + b
  {
    var c := a[..|a| - 2] + b;
    forall i | 0 <= i < |a| ensures a[i] == c[i] { }
  }

  lemma NamespacesIsNormal()
    ensures Normal("namespaces")
  {
    assert "namespaces"[0] == 'n';
  }

  lemma DotsAfterNamespaces(api: seq<string>, clean: seq<string>, item: seq<string>)
    requires |api| >= 2 && AllSegments(api) && !AllNormal(api) && clean == CleanSegments(api, true) && AllNormal(clean)
    requires |item| > 2 && item[0] == "namespaces" && api < clean + item && |clean| == |api| - 2
    ensures AllNormal(api[..|api| - 2]) && api[|api| - 2] == "namespaces" && api[|api| - 1] == ".." == item[1]
  {
    hide CleanSegments, Segment;
    var n := |api|;
    NamespacesIsNormal();
    assert forall i :: 0 <= i < n ==> api[i] == (clean + item)[i];
    assert api[..n - 2] == clean;
    assert AllNormal(api[..n - 1]);
    DotVersion(api);
  }

  /** A version of dots is dropped, or takes the segment before it away. */
  lemma DotVersion(api: seq<string>)
    requires |api| >= 2 && AllNormal(api[..|api| - 1])
    ensures api[|api| - 1] == "." ==> CleanSegments(api, true) == api[..|api| - 1]
    ensures api[|api| - 1] == ".." ==> CleanSegments(api, true) == api[..|api| - 2]
  {
    hide CleanSegments;
    var front := api[..|api| - 1];
    NormalIsClean(front);
    CleanSnoc(front, api[|api| - 1]);
    assert api == front + [api[|api| - 1]] && front[..|front| - 1] == api[..|api| - 2];
    assert Normal(front[|front| - 1]);
  }

  lemma WhereTheDotsAre(api: seq<string>, clean: seq<string>, item: seq<string>)
    requires AllNormal(clean) && AllSegments(api) && !AllNormal(api) && item != [] && item[0] == "namespaces"
    requires api <= clean + item
    ensures |clean| + 2 <= |api|
  {
    var x :| 0 <= x < |api| && !Normal(api[x]);
    assert api[x] == (clean + item)[x];
    NamespacesIsNormal();
  }

  lemma NamesByCoincidence(ns: string, resource: string, name: string, subresource: string)
    requires Segment(ns) && Segment(resource) && Segment(name) && (subresource == "" || Segment(subresource))
    ensures Names([resource, name] + Optional(subresource), ns, resource, name, subresource)
            <==> resource == "namespaces" && name == ns && (subresource == "" || subresource in NAMESPACE_SUBRESOURCES)
  {
    var rest := [resource, name] + Optional(subresource);
    assert rest[1..] == [name] + Optional(subresource);
    assert subresource != "" ==> rest[2..] == [subresource];
  }

  lemma NamesTooLittle(ns: string, resource: string, name: string, subresource: string)
    requires Segment(ns) && Segment(resource) && Segment(name) && (subresource == "" || Segment(subresource))
    ensures !Names([name] + Optional(subresource), ns, resource, name, subresource)
  {
    var rest := [name] + Optional(subresource);
    assert rest[1..] == Optional(subresource);
  }

  // ---- Filling the placeholder in ----

  function Fill(seg: string, name: string): string { ReplaceFirst(seg, "{name}", name) }

  predicate Holds(seg: string) { Contains(seg, "{name}") }

  lemma NothingAcross(a: string, b: string)
    requires !Holds(a) && !Holds(b)
    ensures !Holds(a + "/" + b)
  {
    var i := Index(a + "/" + b, "{name}");
    if i >= 0 { OccursOnOneSide(a, '/', b, "{name}", i); }
  }

  /** Where the first placeholder is inside one segment, only that segment changes. */
  lemma ReplaceInSegment(front: string, seg: string, rest: string, name: string)
    requires !Holds(front) && Holds(seg)
    ensures Fill(front + "/" + seg + rest, name) == front + "/" + Fill(seg, name) + rest
  {
    hide *;
    FirstIsInSegment(front, seg, rest);
    var s, i := front + "/" + seg + rest, Index(seg, "{name}");
    ReplaceAt(s, name);
    ReplaceAt(seg, name);
    CutAt(front, seg, rest, i, name);
  }

  lemma ReplaceAt(s: string, name: string)
    ensures var i := Index(s, "{name}");
            i >= 0 ==> i + 6 <= |s| && Fill(s, name) == s[..i] + name + s[i + 6..]
  {
    hide Index;
  }

  lemma CutAt(front: string, seg: string, rest: string, i: nat, name: string)
    requires i + 6 <= |seg|
    ensures var s, n := front + "/" + seg + rest, |front| + 1 + i;
            s[..n] + name + s[n + 6..] == front + "/" + (seg[..i] + name + seg[i + 6..]) + rest
  {
    var s, n := front + "/" + seg + rest, |front| + 1 + i;
    assert s[..n] == front + "/" + seg[..i];
    assert s[n + 6..] == seg[i + 6..] + rest;
  }

  lemma FirstIsInSegment(front: string, seg: string, rest: string)
    requires !Holds(front) && Holds(seg)
    ensures Index(front + "/" + seg + rest, "{name}") == |front| + 1 + Index(seg, "{name}")
    ensures 0 <= Index(seg, "{name}") && Index(seg, "{name}") + 6 <= |seg|
  {
    var i, b := Index(seg, "{name}"), seg + rest;
    var s := front + "/" + b;
    assert s == front + "/" + seg + rest;
    OccursInLonger(seg, rest, i);
    assert s[|front| + 1 + i..] == b[i..];
    assert OccursAt(s, "{name}", |front| + 1 + i);
    var j := Index(s, "{name}");
    OccursOnOneSide(front, '/', b, "{name}", j);
    if |front| < j < |front| + 1 + i {
      OccursInShorter(seg, rest, j - |front| - 1);
    }
  }

  lemma OccursInLonger(seg: string, rest: string, i: nat)
    requires OccursAt(seg, "{name}", i)
    ensures OccursAt(seg + rest, "{name}", i) && i + 6 <= |seg|
  {
    assert (seg + rest)[i..] == seg[i..] + rest;
  }

  lemma OccursInShorter(seg: string, rest: string, k: nat)
    requires OccursAt(seg + rest, "{name}", k) && k + 6 <= |seg|
    ensures OccursAt(seg, "{name}", k)
  {
    assert (seg + rest)[k..] == seg[k..] + rest;
    assert (seg + rest)[k..][..6] == seg[k..][..6];
  }

  /** The first segment that holds the placeholder is filled in. */
  function Filled(segs: seq<string>, name: string): seq<string> {
    if segs == [] then []
    else if Holds(segs[0]) then [Fill(segs[0], name)] + segs[1..]
    else [segs[0]] + Filled(segs[1..], name)
  }

  /** Filling a path in is filling its segments in. */
  lemma {:induction false} FillSlashed(front: string, segs: seq<string>, name: string)
    requires !Holds(front)
    ensures Fill(front + Slashed(segs), name) == front + Slashed(Filled(segs, name))
    decreases segs
  {
    hide Holds, Fill;
    if segs == [] {
      assert front + Slashed(segs) == front;
      NothingToReplace(front, name);
    } else {
      var seg, rest := segs[0], segs[1..];
      SlashedCons(front, seg, rest);
      assert segs == [seg] + rest;
      if Holds(seg) {
        ReplaceInSegment(front, seg, Slashed(rest), name);
        SlashedCons(front, Fill(seg, name), rest);
      } else {
        NothingAcross(front, seg);
        FillSlashed(front + "/" + seg, rest, name);
        SlashedCons(front, seg, Filled(rest, name));
      }
    }
  }

  lemma NothingToReplace(s: string, name: string)
    requires !Holds(s)
    ensures Fill(s, name) == s
  {
  }

  lemma NoPlaceholderInSlash()
    ensures !Holds("") && !Holds("/")
  {
  }

  lemma FillRooted(segs: seq<string>, name: string)
    ensures Fill(Rooted(segs), name) == Rooted(Filled(segs, name))
  {
    hide Holds, Fill, Slashed;
    NoPlaceholderInSlash();
    if segs == [] {
      NothingToReplace("/", name);
    } else {
      FillSlashed("", segs, name);
      assert "" + Slashed(segs) == Slashed(segs) && "" + Slashed(Filled(segs, name)) == Slashed(Filled(segs, name));
    }
  }

  /** Filling in changes the first segment that holds the placeholder, and no other. */
  lemma {:induction false} FilledAt(segs: seq<string>, name: string) returns (i: nat)
    ensures i <= |segs| && (forall j :: 0 <= j < i ==> !Holds(segs[j]))
    ensures i < |segs| ==> Holds(segs[i]) && Filled(segs, name) == segs[i := Fill(segs[i], name)]
    ensures i == |segs| ==> Filled(segs, name) == segs
  {
    hide Holds, Fill;
    if segs == [] || Holds(segs[0]) {
      i := 0;
      if segs != [] { assert segs == [segs[0]] + segs[1..]; }
    } else {
      var j := FilledAt(segs[1..], name);
      i := j + 1;
      assert segs == [segs[0]] + segs[1..];
      forall k | 0 <= k < i ensures !Holds(segs[k]) { assert k > 0 ==> segs[k] == segs[1..][k - 1]; }
    }
  }

  /** The link's segments, for cleaned API segments. */
  lemma RootLinkSegments(api: seq<string>, resource: string, subresource: string, name: string)
    requires AllNormal(api) && Segment(resource) && (subresource == "" || Segment(subresource))
    ensures RootLink(Rooted(api), resource, subresource, name)
            == Rooted(Filled(CleanSegments(api + ([resource, "{name}"] + Optional(subresource)), true), name))
  {
    hide JoinPaths, Rooted, ReplaceFirst, Filled, CleanSegments;
    var item := [resource, "{name}"] + Optional(subresource);
    TemplateText(resource, subresource);
    assert Free(item, '/');
    JoinOntoRooted(api, item);
    FillRooted(CleanSegments(api + item, true), name);
  }

  lemma TemplateText(resource: string, subresource: string)
    ensures resource + "/{name}" + Suffix(subresource) == Join([resource, "{name}"] + Optional(subresource), "/")
  {
    hide Join;
    JoinAppend([resource], ["{name}"], "/");
    JoinOne(resource, "/");
    JoinOne("{name}", "/");
    assert [resource] + ["{name}"] == [resource, "{name}"];
    if subresource != "" {
      JoinAppend([resource, "{name}"], [subresource], "/");
      JoinOne(subresource, "/");
    } else {
      assert [resource, "{name}"] + [] == [resource, "{name}"];
    }
  }

  // ---- Root-scoped objects ----

  predicate ReadsAsResource(resource: string) { resource !in SPECIAL_VERBS && resource != "namespaces" }

  predicate AnyHolds(segs: seq<string>) { exists i :: 0 <= i < |segs| && Holds(segs[i]) }

  /** The self link of a root-scoped object leads back to it exactly when path cleaning leaves all its parts alone, no
      part before the name holds the placeholder (or the name is the placeholder itself), and its resource is neither a
      special verb nor `namespaces`. */
  lemma RootRoundTrip(r: Resolver, method_: string, p: string, group: string, version: string,
                      resource: string, name: string, subresource: string)
    requires KnownPrefix(r, p, group) && ApiIsSegments(p, group, version)
    requires Segment(resource) && Segment(name) && (subresource == "" || Segment(subresource))
    ensures var link := RootLink(InstallerPrefix("/" + p, group, version), resource, subresource, name);
            var (info, failed) := ReadRequest(r, method_, link);
            var api := ApiSegments(p, group, version);
            !failed && Addresses(info, p, group, version, "", resource, name, subresource)
            <==> && AllNormal(api + ([resource] + Optional(subresource)))
                 && (AnyHolds(api + [resource]) ==> name == "{name}")
                 && ReadsAsResource(resource)
  {
    hide RootLink, InstallerPrefix, Rooted, SplitPath, ReadRequest, Names, CleanApi, CleanSegments, Filled, AnyHolds,
      ReadsAsResource, AllNormal, Addresses;
    var api, clean := ApiSegments(p, group, version), CleanApi(p, group, version);
    var item := [resource, "{name}"] + Optional(subresource);
    var segs := CleanSegments(clean + item, true);
    var link := RootLink(InstallerPrefix("/" + p, group, version), resource, subresource, name);
    PrefixIsClean(p, group, version);
    RootLinkSegments(clean, resource, subresource, name);
    LinkIsSegments(clean, resource, subresource, name);
    SplitRooted(Filled(segs, name));
    PathsThatAddress(r, method_, link, p, group, version, "", resource, name, subresource);
    if AllNormal(api + ([resource] + Optional(subresource))) {
      NormalTemplate(p, group, version, resource, subresource);
      FilledNames(api, resource, name, subresource);
    } else {
      DotsNeverLeadBack(api, segs, resource, name, subresource);
    }
  }

  lemma LinkIsSegments(clean: seq<string>, resource: string, subresource: string, name: string)
    requires AllNormal(clean) && Segment(resource) && Segment(name) && (subresource == "" || Segment(subresource))
    ensures var segs := CleanSegments(clean + ([resource, "{name}"] + Optional(subresource)), true);
            AllNormal(segs) && AllSegments(Filled(segs, name))
  {
    hide CleanSegments, Filled;
    var all := clean + ([resource, "{name}"] + Optional(subresource));
    assert Free(all, '/');
    CleanedIsNormal(all);
    var segs := CleanSegments(all, true);
    var i := FilledAt(segs, name);
    if i < |segs| { FillIsASegment(segs[i], name); }
  }

  lemma FillIsASegment(seg: string, name: string)
    requires Segment(seg) && Segment(name)
    ensures Segment(Fill(seg, name))
  {
    hide Index;
    ReplaceAt(seg, name);
    var i := Index(seg, "{name}");
    if i >= 0 {
      assert forall c :: c in seg[..i] ==> c in seg;
      assert forall c :: c in seg[i + 6..] ==> c in seg;
    } else {
      NothingToReplace(seg, name);
    }
  }

  lemma NormalTemplate(p: string, group: string, version: string, resource: string, subresource: string)
    requires AllNormal(ApiSegments(p, group, version) + ([resource] + Optional(subresource)))
    ensures var api, item := ApiSegments(p, group, version), [resource, "{name}"] + Optional(subresource);
            CleanSegments(CleanApi(p, group, version) + item, true) == api + item
  {
    hide CleanSegments;
    var api, rest := ApiSegments(p, group, version), [resource] + Optional(subresource);
    assert AllNormal(api) by { assert forall i :: 0 <= i < |api| ==> api[i] == (api + rest)[i]; }
    assert AllNormal(rest) by { assert forall i :: 0 <= i < |rest| ==> rest[i] == (api + rest)[|api| + i]; }
    NormalIsClean(api);
    PlaceholderIsNormal();
    hide Normal;
    var item := [resource, "{name}"] + Optional(subresource);
    assert AllNormal(item) by {
      assert item[0] == rest[0] && item[1] == "{name}";
      assert subresource != "" ==> item[2] == rest[1];
    }
    NormalIsClean(api + item);
  }

  lemma PlaceholderIsNormal()
    ensures Normal("{name}")
  {
  }

  /** With normal parts, the filled template names the object unless a placeholder comes too early. */
  lemma FilledNames(api: seq<string>, resource: string, name: string, subresource: string)
    requires api != [] && Segment(resource) && name != ""
    ensures var parts := Filled(api + ([resource, "{name}"] + Optional(subresource)), name);
            api < parts && Names(parts[|api|..], "", resource, name, subresource)
            <==> (AnyHolds(api + [resource]) ==> name == "{name}") && ReadsAsResource(resource)
  {
    hide Filled, Names, Fill, Holds, ReadsAsResource;
    var segs, n := api + ([resource, "{name}"] + Optional(subresource)), |api|;
    var parts := Filled(segs, name);
    var i := FilledAt(segs, name);
    PlaceholderHolds();
    assert segs[n] == resource && segs[n + 1] == "{name}";
    FirstHolder(api, resource, segs, i);
    FillingIn(segs[i], name);
    if name == "{name}" {
      assert parts == segs;
      NamesPlain(resource, name, subresource);
      assert parts[n..] == [resource, name] + Optional(subresource);
    } else if i == n + 1 {
      assert parts == api + ([resource, name] + Optional(subresource));
      NamesPlain(resource, name, subresource);
      assert parts[n..] == [resource, name] + Optional(subresource);
    } else if i == n {
      assert parts[n..] == [Fill(resource, name), "{name}"] + Optional(subresource);
      NamesFilled(Fill(resource, name), resource, name, subresource);
    } else {
      assert parts[i] != api[i];
    }
  }

  lemma PlaceholderHolds()
    ensures Holds("{name}")
  {
    assert OccursAt("{name}", "{name}", 0);
  }

  lemma FirstHolder(api: seq<string>, resource: string, segs: seq<string>, i: nat)
    requires |segs| > |api| + 1 && segs[..|api| + 1] == api + [resource] && Holds(segs[|api| + 1])
    requires i <= |segs| && (forall j :: 0 <= j < i ==> !Holds(segs[j])) && (i < |segs| ==> Holds(segs[i]))
    ensures i <= |api| + 1 && (AnyHolds(api + [resource]) <==> i <= |api|)
  {
    hide Holds;
    var front := api + [resource];
    assert forall j :: 0 <= j < |front| ==> front[j] == segs[j];
    if i <= |api| { assert Holds(front[i]); }
  }

  /** Filling in leaves a segment as it is only when the name is the placeholder; then it always does. */
  lemma FillingIn(seg: string, name: string)
    requires Holds(seg)
    ensures Fill(seg, name) == seg <==> name == "{name}"
    ensures seg == "{name}" ==> Fill(seg, name) == name
  {
    hide Index;
    ReplaceAt(seg, name);
    var i := Index(seg, "{name}");
    var back := seg[i + 6..];
    assert seg == seg[..i] + "{name}" + back by { assert seg[i..] == "{name}" + back by { assert seg[i..][6..] == back; } }
    if seg[..i] + name + back == seg {
      assert name == seg[i..i + |name|] by { assert (seg[..i] + name + back)[i..i + |name|] == name; }
      assert |name| == 6;
      assert seg[i..i + 6] == "{name}" by { assert (seg[..i] + "{name}" + back)[i..i + 6] == "{name}"; }
    }
    if seg == "{name}" {
      assert i == 0 && back == "" by { FirstAtStart(); }
      assert seg[..0] + name + "" == name;
    }
  }

  lemma FirstAtStart()
    ensures Index("{name}", "{name}") == 0
  {
    assert OccursAt("{name}", "{name}", 0);
  }

  lemma NamesPlain(resource: string, name: string, subresource: string)
    requires Segment(resource) && name != ""
    ensures Names([resource, name] + Optional(subresource), "", resource, name, subresource) <==> ReadsAsResource(resource)
  {
    var rest := [resource, name] + Optional(subresource);
    assert rest[1..] == [name] + Optional(subresource);
  }

  lemma NamesFilled(filled: string, resource: string, name: string, subresource: string)
    requires name != "{name}" && name != ""
    ensures !Names([filled, "{name}"] + Optional(subresource), "", resource, name, subresource)
  {
    var rest := [filled, "{name}"] + Optional(subresource);
    assert rest[1..] == ["{name}"] + Optional(subresource);
  }

  /** A dot segment can only come from the name, and then the name is not there a second time. */
  lemma DotsNeverLeadBack(api: seq<string>, segs: seq<string>, resource: string, name: string, subresource: string)
    requires AllNormal(segs) && AllSegments(Filled(segs, name)) && Segment(resource) && Segment(name)
    requires subresource == "" || Segment(subresource)
    requires !AllNormal(api + ([resource] + Optional(subresource)))
    ensures var parts := Filled(segs, name);
            !(api < parts && Names(parts[|api|..], "", resource, name, subresource))
  {
    hide Filled, Names;
    var parts, n := Filled(segs, name), |api|;
    if api < parts && Names(parts[n..], "", resource, name, subresource) {
      var y := NamePlace(parts[n..], resource, name, subresource);
      var x := DotPlace(api, parts, resource, name, subresource, y);
      OnlyOneFromTheName(segs, name, x, n + y);
    }
  }

  /** Where the name is among the parts that name the object. */
  lemma NamePlace(rest: seq<string>, resource: string, name: string, subresource: string) returns (y: nat)
    requires Names(rest, "", resource, name, subresource) && Segment(resource) && Segment(name) && AllSegments(rest)
    ensures 1 <= y < |rest| && rest[y] == name && rest[y - 1] == resource
    ensures subresource != "" ==> y + 1 < |rest| && rest[y + 1] == subresource
  {
    y := if rest[0] in SPECIAL_VERBS then 2 else 1;
    assert rest[0] in SPECIAL_VERBS ==> rest[1..][0] == rest[1] && (|rest| > 2 ==> rest[1..][1] == rest[2]);
  }

  lemma DotPlace(api: seq<string>, parts: seq<string>, resource: string, name: string, subresource: string, y: nat)
    returns (x: nat)
    requires api < parts && !AllNormal(api + ([resource] + Optional(subresource)))
    requires 1 <= y < |parts| - |api| && parts[|api| + y] == name && parts[|api| + y - 1] == resource
    requires subresource != "" ==> y + 1 < |parts| - |api| && parts[|api| + y + 1] == subresource
    ensures x < |parts| && x != |api| + y && !Normal(parts[x])
  {
    hide Normal;
    var all := api + ([resource] + Optional(subresource));
    var k :| 0 <= k < |all| && !Normal(all[k]);
    x := if k < |api| then k else if k == |api| then |api| + y - 1 else |api| + y + 1;
  }

  lemma OnlyOneFromTheName(segs: seq<string>, name: string, x: nat, y: nat)
    requires AllNormal(segs) && Segment(name) && x != y
    requires x < |Filled(segs, name)| && y < |Filled(segs, name)| && !Normal(Filled(segs, name)[x])
    ensures Filled(segs, name)[y] != name
  {
    hide Filled, Holds, Fill;
    var i := FilledAt(segs, name);
    assert x == i && Normal(segs[y]);
    FilledWithDots(segs[i], name);
  }

  lemma FilledWithDots(seg: string, name: string)
    requires Segment(seg) && Segment(name) && Holds(seg) && !Normal(Fill(seg, name))
    ensures Dots(name)
  {
    hide Index;
    FillIsASegment(seg, name);
    ReplaceAt(seg, name);
    var i := Index(seg, "{name}");
    var filled := Fill(seg, name);
    assert filled == seg[..i] + name + seg[i + 6..] && Dots(filled);
    assert |name| <= |filled|;
    assert forall k :: 0 <= k < |name| ==> name[k] == filled[i + k];
    assert forall k :: 0 <= k < |filled| ==> filled[k] == '.';
    if |name| == 1 { assert name == "."; } else { assert name == ".."; }
  }

  /** So an object of a version written as two dots has a self link that leads elsewhere. */
  lemma DotVersionIsLost(r: Resolver, method_: string, p: string, group: string, ns: string, resource: string, name: string)
    requires KnownPrefix(r, p, group) && Segment(p) && Segment(group) && group != "namespaces"
    requires Segment(ns) && Segment(resource) && Segment(name)
    ensures var link := NamespacedLink(InstallerPrefix("/" + p, group, ".."), resource, "", ns, name);
            var (info, failed) := ReadRequest(r, method_, link);
            failed || !Addresses(info, p, group, "..", ns, resource, name, "")
    ensures var link := RootLink(InstallerPrefix("/" + p, group, ".."), resource, "", name);
            var (info, failed) := ReadRequest(r, method_, link);
            failed || !Addresses(info, p, group, "..", "", resource, name, "")
  {
    hide NamespacedLink, RootLink, InstallerPrefix, ReadRequest, Addresses, AnyHolds, ReadsAsResource;
    NamespacedRoundTrip(r, method_, p, group, "..", ns, resource, name, "");
    RootRoundTrip(r, method_, p, group, "..", resource, name, "");
    var api := ApiSegments(p, group, "..");
    assert api[2] == ".." && !Normal(api[2]);
    assert (api + ([resource] + Optional("")))[2] == "..";
  }
}
