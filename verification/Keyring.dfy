/** The index of registry credentials (pkg/credentialprovider): adding configurations, and finding the credentials
    for an image, the most specific registry path first. URL parsing and glob matching are parameters. */
module Keyring {
  import opened Sorting
  import opened Text
  import opened Wrappers

  datatype Url = Url(host: string, path: string)

  datatype Entry = Entry(username: string, password: string, email: string, provider: Option<int>)

  datatype Credential = Credential(username: string, password: string, email: string, provider: Option<int>)

  type Config = map<string, Entry>

  type Parser = string -> Option<Url>

  type Credentials = map<string, seq<Credential>>

  const DEFAULT_REGISTRY_HOST := "index.docker.io"

  function Get(creds: Credentials, key: string): seq<Credential> {
    if key in creds then creds[key] else []
  }

  /** An entry with a provider defers everything to it. */
  function CredentialOf(entry: Entry): Credential {
    if entry.provider.Some? then Credential("", "", "", entry.provider)
    else Credential(entry.username, entry.password, entry.email, None)
  }

  /** The key that a configured location is filed under: its host, and its path less a leading "/v1" or "/v2". */
  function KeyOf(parse: Parser, location: string): Option<string> {
    var parsed := parse(WithScheme(location));
    if parsed.None? then None
    else
      var path := if HasPrefix(parsed.value.path, "/v2/") || HasPrefix(parsed.value.path, "/v1/")
                  then parsed.value.path[3..] else parsed.value.path;
      Some(if path != "" && path != "/" then parsed.value.host + path else parsed.value.host)
  }

  function WithScheme(location: string): string {
    if HasPrefix(location, "https://") || HasPrefix(location, "http://") then location else "https://" + location
  }

  /** A leading "/v1" or "/v2" makes no difference to the key, and neither does a scheme or a lone slash. */
  lemma KeysIgnoreApiVersions(parse: Parser, location: string, other: string, host: string, path: string)
    requires parse(WithScheme(location)) == Some(Url(host, path))
    requires path != "" && path[0] == '/' && !HasPrefix(path, "/v1/") && !HasPrefix(path, "/v2/")
    requires exists v :: v in {"/v1", "/v2"} && parse(WithScheme(other)) == Some(Url(host, v + path))
    ensures KeyOf(parse, other) == KeyOf(parse, location) == Some(if path == "/" then host else host + path)
  {
    var v :| v in {"/v1", "/v2"} && parse(WithScheme(other)) == Some(Url(host, v + path));
    assert (v + path)[3..] == path;
    assert HasPrefix(v + path, v + "/");
  }

  /** A location without a scheme is filed like the same one with `https://`, and `http://` is as good as any. */
  lemma SchemesAreOptional(parse: Parser, location: string, host: string)
    requires !HasPrefix(location, "https://") && !HasPrefix(location, "http://")
    ensures KeyOf(parse, location) == KeyOf(parse, "https://" + location)
    ensures forall scheme :: scheme in {"https://", "http://"} && parse(scheme + location) == Some(Url(host, "")) ==>
              KeyOf(parse, scheme + location) == Some(host)
  {
  }

  // ---- The index ----

  function Distinct(s: seq<string>): seq<string> {
    if s == [] then [] else (if s[0] in s[1..] then [] else [s[0]]) + Distinct(s[1..])
  }

  /** Duplicates eliminated, then sorted from the greatest down. */
  function IndexOf(keys: seq<string>): seq<string> { Reverse(SortStrings(Distinct(keys))) }

  predicate Descending(s: seq<string>) {
    forall i, j :: 0 <= i < j < |s| ==> AtMost(s[j], s[i]) && s[j] != s[i]
  }

  predicate NoRepeats(s: seq<string>) { forall i, j :: 0 <= i < j < |s| ==> s[i] != s[j] }

  lemma {:induction false} DistinctMeans(s: seq<string>)
    ensures NoRepeats(Distinct(s)) && forall x :: x in Distinct(s) <==> x in s
  {
    if s != [] {
      DistinctMeans(s[1..]);
      assert forall x :: x in s <==> x == s[0] || x in s[1..];
      if s[0] !in s[1..] {
        forall i, j | 0 <= i < j < |Distinct(s)| ensures Distinct(s)[i] != Distinct(s)[j] {
          assert Distinct(s)[j] in Distinct(s[1..]);
        }
      }
    }
  }

  lemma NoRepeatsByCount(s: seq<string>)
    ensures NoRepeats(s) <==> forall x :: multiset(s)[x] <= 1
  {
    if NoRepeats(s) {
      forall x ensures multiset(s)[x] <= 1 { CountAtMostOne(s, x); }
    } else {
      var i, j :| 0 <= i < j < |s| && s[i] == s[j];
      assert s == s[..i] + [s[i]] + s[i + 1..j] + [s[j]] + s[j + 1..];
      assert multiset(s) == multiset(s[..i]) + multiset{s[i]} + multiset(s[i + 1..j]) + multiset{s[j]} + multiset(s[j + 1..]);
      assert multiset(s)[s[i]] >= 2;
    }
  }

  lemma {:induction false} CountAtMostOne(s: seq<string>, x: string)
    requires NoRepeats(s)
    ensures multiset(s)[x] <= 1
  {
    if s != [] {
      CountAtMostOne(s[1..], x);
      assert s == [s[0]] + s[1..];
      assert s[0] !in s[1..];
    }
  }

  lemma IndexMeans(keys: seq<string>)
    ensures Descending(IndexOf(keys)) && forall x :: x in IndexOf(keys) <==> x in keys
  {
    hide Distinct, SortStrings, AtMost;
    var d := Distinct(keys);
    DistinctMeans(keys);
    SortPermutes(d);
    SortSorts(d);
    SortKeepsMembers(d);
    NoRepeatsByCount(d);
    NoRepeatsByCount(SortStrings(d));
    forall x ensures x in IndexOf(keys) <==> x in SortStrings(d) {
      if x in SortStrings(d) {
        var i :| 0 <= i < |SortStrings(d)| && SortStrings(d)[i] == x;
        assert IndexOf(keys)[|SortStrings(d)| - 1 - i] == x;
      }
    }
  }

  // ---- Adding ----

  datatype Ring = Ring(index: seq<string>, creds: Credentials)
  {
    /** The index lists exactly the keys that have credentials, from the greatest down. */
    ghost predicate Valid() {
      Descending(index) && InStep()
    }

    ghost predicate InStep() {
      && (forall k :: k in index <==> k in creds)
      && (forall k :: k in creds ==> creds[k] != [])
    }
  }

  const EMPTY := Ring([], map[])

  function AddEntry(parse: Parser, ring: Ring, location: string, entry: Entry): Ring {
    var key := KeyOf(parse, location);
    if key.None? then ring
    else Ring(ring.index + [key.value],
              ring.creds[key.value := Get(ring.creds, key.value) + [CredentialOf(entry)]])
  }

  function AddEntries(parse: Parser, ring: Ring, config: Config, order: seq<string>): Ring
    requires forall l :: l in order ==> l in config
  {
    if order == [] then ring
    else
      var last := order[|order| - 1];
      AddEntry(parse, AddEntries(parse, ring, config, order[..|order| - 1]), last, config[last])
  }

  function Added(parse: Parser, ring: Ring, config: Config, order: seq<string>): Ring
    requires forall l :: l in order ==> l in config
  {
    var r := AddEntries(parse, ring, config, order);
    Ring(IndexOf(r.index), r.creds)
  }

  ghost predicate IsOrder(config: Config, order: seq<string>) { NoRepeats(order) && forall l :: l in order <==> l in config }

  class BasicDockerKeyring {
    var index: seq<string>
    var creds: Credentials

    ghost function Now(): Ring
      reads this
    {
      Ring(index, creds)
    }

    constructor ()
      ensures Now() == EMPTY
    {
      index := [];
      creds := map[];
    }

    /** `order` is the order in which Go happens to visit the configuration. */
    method Add(parse: Parser, config: Config, order: seq<string>)
      requires IsOrder(config, order)
      modifies this
      ensures Now() == Added(parse, old(Now()), config, order)
      ensures old(Now()).Valid() ==> Now().Valid()
    {
      hide KeyOf, CredentialOf, IndexOf, Ring.Valid;
      for i := 0 to |order|
        invariant Now() == AddEntries(parse, old(Now()), config, order[..i])
      {
        assert order[..i + 1][..i] == order[..i];
        var credential := CredentialOf(config[order[i]]);
        var key := KeyOf(parse, order[i]);
        if key.None? {
          continue;
        }
        creds := creds[key.value := Get(creds, key.value) + [credential]];
        index := index + [key.value];
      }
      assert order[..|order|] == order;
      index := IndexOf(index);
      if old(Now()).Valid() {
        AddingKeepsValid(parse, old(Now()), config, order);
      }
    }

    method Lookup(matches: (string, string) -> bool, image: string) returns (found: seq<Credential>, ok: bool)
      ensures (found, ok) == Found(Now(), matches, image)
    {
      found := [];
      for i := 0 to |index|
        invariant Collected(creds, matches, image, index) == found + Collected(creds, matches, image, index[i..])
      {
        assert index[i..][1..] == index[i + 1..];
        if !matches(index[i], image) {
          continue;
        }
        found := found + Get(creds, index[i]);
      }
      assert index[|index|..] == [] && found + [] == found;
      if |found| > 0 {
        return found, true;
      }
      if IsDefaultRegistryMatch(image) {
        if DEFAULT_REGISTRY_HOST in creds {
          return creds[DEFAULT_REGISTRY_HOST], true;
        }
      }
      return [], false;
    }
  }

  lemma {:induction false} EntriesGrowTogether(parse: Parser, ring: Ring, config: Config, order: seq<string>)
    requires ring.Valid() && forall l :: l in order ==> l in config
    ensures AddEntries(parse, ring, config, order).InStep()
  {
    hide KeyOf, CredentialOf, Descending;
    if order == [] {
      assert AddEntries(parse, ring, config, order) == ring;
    } else {
      var front, last := order[..|order| - 1], order[|order| - 1];
      EntriesGrowTogether(parse, ring, config, front);
      var before := AddEntries(parse, ring, config, front);
      if KeyOf(parse, last).Some? {
        var key := KeyOf(parse, last).value;
        assert forall k :: k in before.index + [key] <==> k in before.index || k == key;
      }
    }
  }

  lemma AddingKeepsValid(parse: Parser, ring: Ring, config: Config, order: seq<string>)
    requires ring.Valid() && forall l :: l in order ==> l in config
    ensures Added(parse, ring, config, order).Valid()
  {
    hide AddEntries, IndexOf, Descending;
    EntriesGrowTogether(parse, ring, config, order);
    var r := AddEntries(parse, ring, config, order);
    IndexMeans(r.index);
  }

  // ---- Every run ----

  datatype Addition = Addition(config: Config, order: seq<string>)

  ghost predicate Proper(additions: seq<Addition>) {
    forall i :: 0 <= i < |additions| ==> IsOrder(additions[i].config, additions[i].order)
  }

  function Run(parse: Parser, additions: seq<Addition>): Ring
    requires Proper(additions)
  {
    if additions == [] then EMPTY
    else
      var last := additions[|additions| - 1];
      Added(parse, Run(parse, additions[..|additions| - 1]), last.config, last.order)
  }

  /** After any additions the index is strictly descending and lists exactly the keys that have credentials. */
  lemma {:induction false} RunsStayValid(parse: Parser, additions: seq<Addition>)
    requires Proper(additions)
    ensures Run(parse, additions).Valid()
  {
    if additions != [] {
      var last := additions[|additions| - 1];
      RunsStayValid(parse, additions[..|additions| - 1]);
      AddingKeepsValid(parse, Run(parse, additions[..|additions| - 1]), last.config, last.order);
    }
  }

  /** The credentials that a configuration files under a key, in the order visited. */
  function Filed(parse: Parser, config: Config, order: seq<string>, key: string): seq<Credential>
    requires forall l :: l in order ==> l in config
  {
    if order == [] then []
    else
      var last := order[|order| - 1];
      Filed(parse, config, order[..|order| - 1], key)
      + (if KeyOf(parse, last) == Some(key) then [CredentialOf(config[last])] else [])
  }

  /** Adding leaves what was filed before in place and files each new credential once. */
  lemma {:induction false} AddingFiles(parse: Parser, ring: Ring, config: Config, order: seq<string>, key: string)
    requires forall l :: l in order ==> l in config
    ensures Get(Added(parse, ring, config, order).creds, key) == Get(ring.creds, key) + Filed(parse, config, order, key)
  {
    hide KeyOf, CredentialOf, IndexOf;
    if order != [] {
      var front := order[..|order| - 1];
      AddingFiles(parse, ring, config, front, key);
      assert AddEntries(parse, ring, config, front).creds == Added(parse, ring, config, front).creds;
    }
  }

  lemma {:induction false} FiledMeans(parse: Parser, config: Config, order: seq<string>, key: string, c: Credential)
    requires forall l :: l in order ==> l in config
    ensures c in Filed(parse, config, order, key) <==>
              exists l :: l in order && KeyOf(parse, l) == Some(key) && CredentialOf(config[l]) == c
  {
    hide KeyOf, CredentialOf;
    if order != [] {
      var front, last := order[..|order| - 1], order[|order| - 1];
      FiledMeans(parse, config, front, key, c);
      assert forall l :: l in order <==> l in front || l == last;
    }
  }

  ghost predicate WasAdded(parse: Parser, additions: seq<Addition>, key: string, c: Credential) {
    exists i, l :: 0 <= i < |additions| && l in additions[i].config
                   && KeyOf(parse, l) == Some(key) && CredentialOf(additions[i].config[l]) == c
  }

  lemma NothingAdded(parse: Parser, key: string, c: Credential)
    ensures !WasAdded(parse, [], key, c)
  {
  }

  lemma LastAddition(parse: Parser, additions: seq<Addition>, key: string, c: Credential)
    requires Proper(additions) && additions != []
    ensures var front, last := additions[..|additions| - 1], additions[|additions| - 1];
            WasAdded(parse, additions, key, c)
            <==> WasAdded(parse, front, key, c) || c in Filed(parse, last.config, last.order, key)
  {
    hide KeyOf, CredentialOf, Filed;
    var front, last := additions[..|additions| - 1], additions[|additions| - 1];
    FiledMeans(parse, last.config, last.order, key, c);
    if WasAdded(parse, additions, key, c) {
      var i, l :| 0 <= i < |additions| && l in additions[i].config
                  && KeyOf(parse, l) == Some(key) && CredentialOf(additions[i].config[l]) == c;
      if i < |front| { assert l in front[i].config; } else { assert l in last.order; }
    }
    if WasAdded(parse, front, key, c) {
      var i, l :| 0 <= i < |front| && l in front[i].config
                  && KeyOf(parse, l) == Some(key) && CredentialOf(front[i].config[l]) == c;
      assert l in additions[i].config;
    } else if c in Filed(parse, last.config, last.order, key) {
      var l :| l in last.order && KeyOf(parse, l) == Some(key) && CredentialOf(last.config[l]) == c;
      assert l in additions[|front|].config;
    }
  }

  /** After any additions the ring holds, under each key, exactly the credentials configured for it. */
  lemma {:induction false} NoCredentialIsLost(parse: Parser, additions: seq<Addition>, key: string, c: Credential)
    requires Proper(additions)
    ensures c in Get(Run(parse, additions).creds, key) <==> WasAdded(parse, additions, key, c)
  {
    hide KeyOf, CredentialOf, Filed, Added, WasAdded;
    if additions == [] {
      NothingAdded(parse, key, c);
    } else {
      var front, last := additions[..|additions| - 1], additions[|additions| - 1];
      NoCredentialIsLost(parse, front, key, c);
      AddingFiles(parse, Run(parse, front), last.config, last.order, key);
      LastAddition(parse, additions, key, c);
    }
  }

  // ---- Looking up ----

  predicate IsDefaultRegistryMatch(image: string) {
    var slash := Index(image, "/");
    var first := if slash < 0 then image else image[..slash];
    if first == "" then false
    else if slash < 0 then true
    else if first == "docker.io" || first == "index.docker.io" then true
    else '.' !in first && ':' !in first
  }

  /** The credentials of the matching keys among `keys`, in that order. */
  function Collected(creds: Credentials, matches: (string, string) -> bool, image: string, keys: seq<string>)
    : seq<Credential>
  {
    if keys == [] then []
    else (if matches(keys[0], image) then Get(creds, keys[0]) else []) + Collected(creds, matches, image, keys[1..])
  }

  function Found(ring: Ring, matches: (string, string) -> bool, image: string): (seq<Credential>, bool) {
    var c := Collected(ring.creds, matches, image, ring.index);
    if c != [] then (c, true)
    else if IsDefaultRegistryMatch(image) && DEFAULT_REGISTRY_HOST in ring.creds
    then (ring.creds[DEFAULT_REGISTRY_HOST], true)
    else ([], false)
  }

  lemma {:induction false} CollectedAppend(creds: Credentials, matches: (string, string) -> bool, image: string,
                                           a: seq<string>, b: seq<string>)
    ensures Collected(creds, matches, image, a + b)
            == Collected(creds, matches, image, a) + Collected(creds, matches, image, b)
  {
    if a == [] {
      assert a + b == b;
    } else {
      CollectedAppend(creds, matches, image, a[1..], b);
      assert (a + b)[1..] == a[1..] + b && (a + b)[0] == a[0];
    }
  }

  lemma CollectedAround(creds: Credentials, matches: (string, string) -> bool, image: string, keys: seq<string>, i: nat)
    requires i < |keys| && matches(keys[i], image)
    ensures Collected(creds, matches, image, keys)
            == Collected(creds, matches, image, keys[..i]) + Get(creds, keys[i])
               + Collected(creds, matches, image, keys[i + 1..])
  {
    CollectedAppend(creds, matches, image, keys[..i], keys[i..]);
    assert keys == keys[..i] + keys[i..];
    assert keys[i..][1..] == keys[i + 1..];
  }

  /** When a key and a proper prefix of it both match, the longer key's credentials come first. */
  lemma LongerKeyComesFirst(ring: Ring, matches: (string, string) -> bool, image: string, key: string, prefix: string)
    returns (a: seq<Credential>, b: seq<Credential>, c: seq<Credential>)
    requires ring.Valid() && key in ring.creds && prefix in ring.creds && prefix < key
    requires matches(key, image) && matches(prefix, image)
    ensures Found(ring, matches, image) == (a + ring.creds[key] + b + ring.creds[prefix] + c, true)
  {
    hide AtMost, IsDefaultRegistryMatch, Collected, Get;
    var i, j := LongerKeyIsEarlier(ring, key, prefix);
    var later := ring.index[i + 1..];
    assert later[j - i - 1] == prefix;
    CollectedAround(ring.creds, matches, image, ring.index, i);
    CollectedAround(ring.creds, matches, image, later, j - i - 1);
    a := Collected(ring.creds, matches, image, ring.index[..i]);
    b := Collected(ring.creds, matches, image, later[..j - i - 1]);
    c := Collected(ring.creds, matches, image, later[j - i..]);
    Reassociate(a, ring.creds[key], b, ring.creds[prefix], c);
    GetPresent(ring.creds, key);
    GetPresent(ring.creds, prefix);
  }

  lemma GetPresent(creds: Credentials, key: string)
    requires key in creds
    ensures Get(creds, key) == creds[key]
  {
  }

  lemma Reassociate(a: seq<Credential>, x: seq<Credential>, b: seq<Credential>, y: seq<Credential>, c: seq<Credential>)
    ensures a + x + (b + y + c) == a + x + b + y + c
  {
  }

  lemma LongerKeyIsEarlier(ring: Ring, key: string, prefix: string) returns (i: nat, j: nat)
    requires ring.Valid() && key in ring.creds && prefix in ring.creds && prefix < key
    ensures i < j < |ring.index| && ring.index[i] == key && ring.index[j] == prefix
  {
    hide AtMost;
    i :| 0 <= i < |ring.index| && ring.index[i] == key;
    j :| 0 <= j < |ring.index| && ring.index[j] == prefix;
    PrefixIsAtMost(prefix, key);
    if j < i {
      AtMostAntisymmetric(key, prefix);
    }
  }

  lemma {:induction false} CollectedMeans(creds: Credentials, matches: (string, string) -> bool, image: string,
                                          keys: seq<string>, c: Credential)
    ensures c in Collected(creds, matches, image, keys) <==>
              exists k :: k in keys && matches(k, image) && c in Get(creds, k)
  {
    if keys != [] {
      CollectedMeans(creds, matches, image, keys[1..], c);
      assert forall k :: k in keys <==> k == keys[0] || k in keys[1..];
    }
  }

  /** Whether anything is found, and what: the credentials of all matching keys, or else the default registry's. */
  lemma FoundMeans(ring: Ring, matches: (string, string) -> bool, image: string, c: Credential)
    requires ring.Valid()
    ensures
      var matched := exists k :: k in ring.creds && matches(k, image);
      var fallback := IsDefaultRegistryMatch(image) && DEFAULT_REGISTRY_HOST in ring.creds;
      && (Found(ring, matches, image).1 <==> matched || fallback)
      && (c in Found(ring, matches, image).0 <==>
            if matched then exists k :: k in ring.creds && matches(k, image) && c in ring.creds[k]
            else fallback && c in ring.creds[DEFAULT_REGISTRY_HOST])
  {
    hide IsDefaultRegistryMatch, Descending;
    var all := Collected(ring.creds, matches, image, ring.index);
    CollectedMeans(ring.creds, matches, image, ring.index, c);
    if all != [] {
      CollectedMeans(ring.creds, matches, image, ring.index, all[0]);
    } else {
      forall k | k in ring.creds ensures !matches(k, image) {
        CollectedMeans(ring.creds, matches, image, ring.index, ring.creds[k][0]);
      }
    }
  }

  // ---- From a configuration to an image ----

  /** However many configurations are added, an entry whose key matches an image is found for it: its name, password
      and address, or, if it defers to a provider, that provider alone. */
  lemma ConfiguredEntryIsFound(parse: Parser, additions: seq<Addition>, i: nat, location: string, key: string,
                               matches: (string, string) -> bool, image: string)
    requires Proper(additions) && i < |additions| && location in additions[i].config
    requires KeyOf(parse, location) == Some(key) && matches(key, image)
    ensures var e, (found, ok) := additions[i].config[location], Found(Run(parse, additions), matches, image);
            ok && (if e.provider.Some? then Credential("", "", "", e.provider)
                   else Credential(e.username, e.password, e.email, None)) in found
  {
    hide Run, KeyOf, Found, Proper;
    var c := CredentialOf(additions[i].config[location]);
    NoCredentialIsLost(parse, additions, key, c);
    assert WasAdded(parse, additions, key, c);
    RunsStayValid(parse, additions);
    FoundMeans(Run(parse, additions), matches, image, c);
  }

  /** Images that fall back on the default registry: those without a registry, those that spell its name out, and those
      whose first part is a user, having neither a dot nor a colon. */
  lemma DefaultRegistryImages(first: string, rest: string)
    requires '/' !in first
    ensures IsDefaultRegistryMatch(first) <==> first != ""
    ensures IsDefaultRegistryMatch(first + "/" + rest) <==>
              first == "docker.io" || first == "index.docker.io" || (first != "" && '.' !in first && ':' !in first)
  {
    ContainsChar(first, '/');
    IndexAfterFree(first, '/', rest);
    assert (first + "/" + rest)[..|first|] == first;
  }
}
