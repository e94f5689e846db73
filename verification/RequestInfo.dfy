/** Request paths (pkg/apiserver): the parser of handlers.go and apiserver.go, and the self links that
    api_installer.go prints. */
module RequestPaths {
  import opened Text

  const SPECIAL_VERBS := {"proxy", "redirect", "watch"}
  const SPECIAL_VERBS_NO_SUBRESOURCES := {"proxy", "redirect"}
  const NAMESPACE_SUBRESOURCES := {"status", "finalize"}

  datatype RequestInfo = RequestInfo(
    isResourceRequest: bool, path: string, verb: string, apiPrefix: string, apiGroup: string, apiVersion: string,
    ns: string, resource: string, subresource: string, name: string, parts: seq<string>)

  datatype Resolver = Resolver(apiPrefixes: set<string>, grouplessApiPrefixes: set<string>)

  function SplitPath(path: string): (parts: seq<string>) {
    var p := Trim(path, '/');
    if p == "" then [] else Split(p, "/")
  }

  function VerbOf(method_: string): string {
    match method_
    case "POST" => "create"
    case "GET" => "get"
    case "HEAD" => "get"
    case "PUT" => "update"
    case "PATCH" => "patch"
    case "DELETE" => "delete"
    case _ => ""
  }

  /** What is left of a verb once it is known whether the request names an object. */
  function FinalVerb(verb: string, name: string): string {
    if name != "" then verb
    else if verb == "get" then "list"
    else if verb == "delete" then "deletecollection"
    else verb
  }

  // ---- What a list of path parts means ----

  /** The part after prefix, group and version, read as [verb] [namespaces ns] resource [name [subresource]]. */
  function ReadResource(info: RequestInfo, verb: string, parts: seq<string>): RequestInfo
    requires parts != []
  {
    var inNamespace := parts[0] == "namespaces" && |parts| > 1;
    var rest := if inNamespace && |parts| > 2 && parts[2] !in NAMESPACE_SUBRESOURCES then parts[2..] else parts;
    var name := if |rest| >= 2 then rest[1] else "";
    info.(ns := if inNamespace then parts[1] else "", parts := rest, resource := rest[0], name := name,
          subresource := if |rest| >= 3 && verb !in SPECIAL_VERBS_NO_SUBRESOURCES then rest[2] else "",
          verb := FinalVerb(verb, name))
  }

  /** The number of parts that name the API: prefix and version, with the group in between if any. */
  function ApiParts(r: Resolver, prefix: string): nat {
    if prefix in r.grouplessApiPrefixes then 2 else 3
  }

  /** The reading of a whole path; the flag tells that no kind and namespace could be determined. */
  function ReadRequest(r: Resolver, method_: string, path: string): (RequestInfo, bool) {
    var parts := SplitPath(path);
    var info := RequestInfo(false, path, ToLower(method_), "", "", "", "", "", "", "", []);
    if |parts| < 3 || parts[0] !in r.apiPrefixes then (info, false)
    else if |parts| <= ApiParts(r, parts[0]) then (info.(apiPrefix := parts[0]), false)
    else
      var n := ApiParts(r, parts[0]);
      var api := info.(isResourceRequest := true, apiPrefix := parts[0],
                       apiGroup := if n == 3 then parts[1] else "", apiVersion := parts[n - 1]);
      if parts[n] !in SPECIAL_VERBS then (ReadResource(api, VerbOf(method_), parts[n..]), false)
      else if |parts| == n + 1 then (api, true)
      else (ReadResource(api, parts[n], parts[n + 1..]), false)
  }

  /** The parser: consumes the parts one by one and fills in what it finds. */
  method GetRequestInfo(r: Resolver, method_: string, path: string) returns (info: RequestInfo, failed: bool)
    ensures (info, failed) == ReadRequest(r, method_, path)
  {
    hide SplitPath, ToLower, VerbOf, ReadResource;
    info := RequestInfo(false, path, ToLower(method_), "", "", "", "", "", "", "", []);
    var currentParts := SplitPath(path);
    if |currentParts| < 3 {
      return info, false;
    }
    if currentParts[0] !in r.apiPrefixes {
      return info, false;
    }
    info := info.(apiPrefix := currentParts[0]);
    currentParts := currentParts[1..];
    if info.apiPrefix !in r.grouplessApiPrefixes {
      if |currentParts| < 3 {
        return info, false;
      }
      info := info.(apiGroup := currentParts[0]);
      currentParts := currentParts[1..];
    }
    info := info.(isResourceRequest := true, apiVersion := currentParts[0]);
    currentParts := currentParts[1..];
    assert currentParts == SplitPath(path)[ApiParts(r, info.apiPrefix)..];

    if currentParts[0] in SPECIAL_VERBS {
      if |currentParts| < 2 {
        return info, true;
      }
      info := info.(verb := currentParts[0]);
      currentParts := currentParts[1..];
    } else {
      info := info.(verb := VerbOf(method_));
    }
    VerbIsOverwritten(info.(verb := ToLower(method_)), info.verb, currentParts);
    info := FillResource(info, currentParts);
    return info, false;
  }

  lemma VerbIsOverwritten(info: RequestInfo, verb: string, parts: seq<string>)
    requires parts != []
    ensures ReadResource(info.(verb := verb), verb, parts) == ReadResource(info, verb, parts)
  {
  }

  /** The second half of the parser, once the verb is known. */
  method FillResource(api: RequestInfo, parts: seq<string>) returns (info: RequestInfo)
    requires parts != [] && api.ns == api.name == api.subresource == ""
    ensures info == ReadResource(api, api.verb, parts)
  {
    info := api;
    var currentParts := parts;
    if currentParts[0] == "namespaces" {
      if |currentParts| > 1 {
        info := info.(ns := currentParts[1]);
        if |currentParts| > 2 && currentParts[2] !in NAMESPACE_SUBRESOURCES {
          currentParts := currentParts[2..];
        }
      }
    } else {
      info := info.(ns := "");
    }
    info := info.(parts := currentParts);

    if |info.parts| >= 3 && info.verb !in SPECIAL_VERBS_NO_SUBRESOURCES {
      info := info.(subresource := info.parts[2]);
    }
    if |info.parts| >= 2 {
      info := info.(name := info.parts[1]);
    }
    info := info.(resource := info.parts[0]);

    if info.name == "" && info.verb == "get" {
      info := info.(verb := "list");
    }
    if info.name == "" && info.verb == "delete" {
      info := info.(verb := "deletecollection");
    }
  }

  // ---- Which paths address an object ----

  /** The parts of a path that name the API. */
  function ApiSegments(p: string, group: string, version: string): seq<string> {
    [p] + (if group == "" then [] else [group]) + [version]
  }

  /** The request addresses this very object. */
  predicate Addresses(info: RequestInfo, p: string, group: string, version: string, ns: string, resource: string,
                      name: string, subresource: string) {
    && info.isResourceRequest && info.apiPrefix == p && info.apiGroup == group && info.apiVersion == version
    && info.ns == ns && info.resource == resource && info.name == name && info.subresource == subresource
  }

  /** The parts past any special verb, and whether a third one is a subresource there. */
  function PastVerb(rest: seq<string>): (seq<string>, bool) {
    if rest != [] && rest[0] in {"proxy", "redirect", "watch"} then (rest[1..], rest[0] == "watch") else (rest, true)
  }

  /** The parts after the API segments name this object. */
  predicate Names(rest: seq<string>, ns: string, resource: string, name: string, subresource: string) {
    var (parts, subresources) := PastVerb(rest);
    parts != [] && NamesItem(parts, subresources, ns, resource, name, subresource)
  }

  predicate NamesItem(parts: seq<string>, subresources: bool, ns: string, resource: string, name: string, subresource: string)
    requires parts != []
  {
    && (if parts[0] == "namespaces" && |parts| > 1 then ns == parts[1] else ns == "")
    && var item := if parts[0] == "namespaces" && |parts| > 2 && parts[2] !in {"status", "finalize"} then parts[2..] else parts;
    && resource == item[0]
    && name == (if |item| > 1 then item[1] else "")
    && subresource == (if |item| > 2 && subresources then item[2] else "")
  }

  /** A path addresses an object exactly when it starts with the API segments and goes on to name the object. */
  lemma PathsThatAddress(r: Resolver, method_: string, path: string, p: string, group: string, version: string,
                         ns: string, resource: string, name: string, subresource: string)
    requires p in r.apiPrefixes && (p in r.grouplessApiPrefixes <==> group == "")
    ensures var (info, failed) := ReadRequest(r, method_, path);
            var parts, api := SplitPath(path), ApiSegments(p, group, version);
            !failed && Addresses(info, p, group, version, ns, resource, name, subresource)
            <==> api < parts && Names(parts[|api|..], ns, resource, name, subresource)
  {
    hide SplitPath, VerbOf, ToLower, FinalVerb, Names, ReadResource;
    var parts, api := SplitPath(path), ApiSegments(p, group, version);
    if |parts| > |api| && parts[0] == p {
      StartsWithApi(p, group, version, parts);
      PastApi(r, method_, path, p, |api|);
      NamesMeans(r, method_, path, |api|, ns, resource, name, subresource);
    } else {
      ElsewhereOrTooShort(r, method_, path, p, |api|);
      assert !(api < parts);
    }
  }

  lemma ElsewhereOrTooShort(r: Resolver, method_: string, path: string, p: string, n: nat)
    requires n == ApiParts(r, p) && (|SplitPath(path)| <= n || SplitPath(path)[0] != p)
    ensures var info := ReadRequest(r, method_, path).0; !(info.isResourceRequest && info.apiPrefix == p)
  {
    hide SplitPath, VerbOf, ToLower, FinalVerb;
  }

  lemma StartsWithApi(p: string, group: string, version: string, parts: seq<string>)
    requires |parts| > |ApiSegments(p, group, version)| && parts[0] == p
    ensures var api := ApiSegments(p, group, version);
            api < parts <==> (group == "" || parts[1] == group) && parts[|api| - 1] == version
  {
    var n := |ApiSegments(p, group, version)|;
    assert parts[..n] == if group == "" then [p, parts[1]] else [p, parts[1], parts[2]];
  }

  /** The parsed API parts of a path that goes on past them. */
  lemma PastApi(r: Resolver, method_: string, path: string, p: string, n: nat)
    requires p in r.apiPrefixes && n == ApiParts(r, p)
    requires |SplitPath(path)| > n && SplitPath(path)[0] == p
    ensures var info, parts := ReadRequest(r, method_, path).0, SplitPath(path);
            && info.isResourceRequest && info.apiPrefix == p && info.apiVersion == parts[n - 1]
            && info.apiGroup == if n == 3 then parts[1] else ""
  {
    hide SplitPath, VerbOf, ToLower, FinalVerb;
  }

  /** The parsed object of such a path. */
  lemma NamesMeans(r: Resolver, method_: string, path: string, n: nat, ns: string, resource: string, name: string,
                   subresource: string)
    requires |SplitPath(path)| > n > 0 && SplitPath(path)[0] in r.apiPrefixes && n == ApiParts(r, SplitPath(path)[0])
    ensures var (info, failed) := ReadRequest(r, method_, path);
            (!failed && info.ns == ns && info.resource == resource && info.name == name && info.subresource == subresource)
            <==> Names(SplitPath(path)[n..], ns, resource, name, subresource)
  {
    hide SplitPath, VerbOf, ToLower, FinalVerb, ReadResource, NamesItem;
    VerbsTakeSubresources(method_);
    var parts := SplitPath(path);
    assert parts[n + 1..] == parts[n..][1..];
    var api := RequestInfo(true, path, ToLower(method_), parts[0], if n == 3 then parts[1] else "", parts[n - 1],
                           "", "", "", "", []);
    if parts[n] !in SPECIAL_VERBS {
      ItemMeans(api, VerbOf(method_), parts[n..], ns, resource, name, subresource);
    } else if |parts| > n + 1 {
      ItemMeans(api, parts[n], parts[n + 1..], ns, resource, name, subresource);
    }
  }

  lemma ItemMeans(api: RequestInfo, verb: string, parts: seq<string>, ns: string, resource: string, name: string,
                  subresource: string)
    requires parts != []
    ensures var info := ReadResource(api, verb, parts);
            (info.ns == ns && info.resource == resource && info.name == name && info.subresource == subresource)
            <==> NamesItem(parts, verb != "proxy" && verb != "redirect", ns, resource, name, subresource)
  {
    hide FinalVerb;
  }

  lemma VerbsTakeSubresources(method_: string)
    ensures VerbOf(method_) !in SPECIAL_VERBS_NO_SUBRESOURCES
  {
  }

  // ---- Verbs ----

  /** The verb for each HTTP method, and whether the request names an object. */
  const VERBS: map<(string, bool), string> := map[
    ("POST", true) := "create", ("POST", false) := "create",
    ("GET", true) := "get", ("GET", false) := "list",
    ("HEAD", true) := "get", ("HEAD", false) := "list",
    ("PUT", true) := "update", ("PUT", false) := "update",
    ("PATCH", true) := "patch", ("PATCH", false) := "patch",
    ("DELETE", true) := "delete", ("DELETE", false) := "deletecollection"]

  /** The verb of a request: the special verb in its path if there is one, else the one of its method, which depends on
      whether an object is named; the method itself for other requests. */
  lemma VerbOfRequest(r: Resolver, method_: string, path: string)
    ensures var (info, failed) := ReadRequest(r, method_, path);
            var parts := SplitPath(path);
            var n := if parts != [] then ApiParts(r, parts[0]) else 0;
            && (info.isResourceRequest ==> |parts| > n)
            && info.verb == if !info.isResourceRequest || failed then ToLower(method_)
                            else if parts[n] in {"proxy", "redirect", "watch"} then parts[n]
                            else if (method_, info.name != "") in VERBS then VERBS[(method_, info.name != "")] else ""
  {
    hide SplitPath, ToLower, FinalVerb, VerbOf;
    var parts := SplitPath(path);
    var name := ReadRequest(r, method_, path).0.name;
    MethodVerbs(method_, name);
    if |parts| >= 3 && |parts| > ApiParts(r, parts[0]) { SpecialVerbsStay(parts[ApiParts(r, parts[0])], name); }
  }

  lemma MethodVerbs(method_: string, name: string)
    ensures FinalVerb(VerbOf(method_), name)
            == if (method_, name != "") in VERBS then VERBS[(method_, name != "")] else ""
  {
  }

  lemma SpecialVerbsStay(verb: string, name: string)
    ensures verb in SPECIAL_VERBS ==> FinalVerb(verb, name) == verb
  {
  }

  // ---- The rest of the parts ----

  /** What is kept of the path is all of it, and its parts from the resource on. */
  lemma PartsFromResource(r: Resolver, method_: string, path: string)
    ensures var (info, failed) := ReadRequest(r, method_, path);
            && info.path == path
            && (info.isResourceRequest && !failed ==>
                  && 0 < |info.parts| <= |SplitPath(path)| && info.parts == SplitPath(path)[|SplitPath(path)| - |info.parts|..]
                  && info.resource == info.parts[0] && info.name == if |info.parts| > 1 then info.parts[1] else "")
  {
    hide SplitPath, ToLower, FinalVerb, VerbOf, ReadResource;
    var parts, n := SplitPath(path), if SplitPath(path) != [] then ApiParts(r, SplitPath(path)[0]) else 0;
    var info := ReadRequest(r, method_, path).0;
    if n < |parts| && |parts| >= 3 && parts[0] in r.apiPrefixes {
      var api := RequestInfo(true, path, ToLower(method_), parts[0], if n == 3 then parts[1] else "", parts[n - 1],
                             "", "", "", "", []);
      if parts[n] !in SPECIAL_VERBS {
        ReadParts(api, VerbOf(method_), parts, n);
      } else if |parts| > n + 1 {
        ReadParts(api, parts[n], parts, n + 1);
      }
    }
  }

  lemma ReadParts(api: RequestInfo, verb: string, parts: seq<string>, n: nat)
    requires n < |parts|
    ensures var info := ReadResource(api, verb, parts[n..]);
            && info.path == api.path && info.isResourceRequest == api.isResourceRequest
            && 0 < |info.parts| <= |parts| && info.parts == parts[|parts| - |info.parts|..]
            && info.resource == info.parts[0] && info.name == if |info.parts| > 1 then info.parts[1] else ""
  {
    assert |parts| > n + 2 ==> parts[n..][2..] == parts[n + 2..];
  }
}
