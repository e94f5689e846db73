/** The record tree of kube-dns (pkg/dns/treecache.go) and the flat map it refines. */
module TreeCaches {
  import opened Text
  import opened Wrappers

  datatype Record = Record(host: string, port: int, priority: int, weight: int, ttl: int, key: string)

  /** The labels walked from the root to a node, outermost label innermost. */
  datatype Path = Root | Sub(up: Path, name: string)

  /** A place for a record: a node, then the entry key there. */
  datatype Loc = Loc(path: Path, key: string)

  type Flat = imap<Loc, Record>

  /** The node path that a list of labels spells. */
  function Walk(labels: seq<string>): Path {
    if labels == [] then Root else Sub(Walk(Front(labels)), Last(labels))
  }

  function Front(labels: seq<string>): seq<string>
    requires labels != []
  {
    labels[..|labels| - 1]
  }

  function Last(labels: seq<string>): string
    requires labels != []
  {
    labels[|labels| - 1]
  }

  /** Whether `p` is `base` or a descendant of it. */
  predicate Below(base: Path, p: Path) {
    p == base || (p.Sub? && Below(base, p.up))
  }

  /** The path `p`, taken from `base` instead of from the root. */
  function Plus(base: Path, p: Path): Path {
    if p.Root? then base else Sub(Plus(base, p.up), p.name)
  }

  /** The part of `p` below `base`. */
  function Strip(base: Path, p: Path): (q: Path)
    requires Below(base, p)
    ensures Plus(base, q) == p
  {
    if p == base then Root else Sub(Strip(base, p.up), p.name)
  }

  lemma {:induction false} StripPlus(base: Path, q: Path)
    ensures Below(base, Plus(base, q)) && Strip(base, Plus(base, q)) == q
  {
    if q.Sub? {
      StripPlus(base, q.up);
      PlusGrows(base, q);
    }
  }

  function Depth(p: Path): nat {
    if p.Root? then 0 else 1 + Depth(p.up)
  }

  lemma {:induction false} PlusGrows(base: Path, q: Path)
    ensures Depth(Plus(base, q)) == Depth(base) + Depth(q)
  {
    if q.Sub? { PlusGrows(base, q.up); }
  }

  /** The bindings of `f` that are not below `base`. */
  ghost function Prune(f: Flat, base: Path): Flat {
    imap l | l in f && !Below(base, l.path) :: f[l]
  }

  /** Everything below `base` replaced by `g`, moved there. */
  ghost function Graft(f: Flat, base: Path, g: Flat): Flat {
    imap l: Loc | if Below(base, l.path) then Loc(Strip(base, l.path), l.key) in g else l in f
      :: if Below(base, l.path) then g[Loc(Strip(base, l.path), l.key)] else f[l]
  }

  // ---- What a wildcard query asks for, said on the flat map alone ----

  predicate LabelMatch(pattern: string, name: string) {
    if pattern == "*" then !HasPrefix(name, "_") else name == pattern
  }

  predicate StemMatch(stem: seq<string>, p: Path) {
    if stem == [] then p.Root?
    else p.Sub? && LabelMatch(Last(stem), p.name) && StemMatch(Front(stem), p.up)
  }

  /** Whether the record at `l` belongs to the answer of query `q` over `f`: a final `*` asks for the
      entries of every node reached by the stem; a final name asks for that entry, or for the
      entries of that child where the node has no such entry. */
  ghost predicate Answers(f: Flat, q: seq<string>, l: Loc) {
    if q == [] then l.path.Root?
    else if Last(q) == "*" then StemMatch(Front(q), l.path)
    else
      || (StemMatch(Front(q), l.path) && l.key == Last(q))
      || (l.path.Sub? && StemMatch(Front(q), l.path.up) && l.path.name == Last(q)
          && Loc(l.path.up, Last(q)) !in f)
  }

  predicate Distinct<T(==)>(s: seq<T>) {
    forall i, j :: 0 <= i < j < |s| ==> s[i] != s[j]
  }

  /** `recs` lists the records of `f` at the distinct places `locs`. */
  ghost predicate Lists(f: Flat, locs: seq<Loc>, recs: seq<Record>) {
    && |locs| == |recs| && Distinct(locs)
    && forall i :: 0 <= i < |locs| ==> locs[i] in f && f[locs[i]] == recs[i]
  }

  // ---- Pictures of the heap: what the nodes of a tree hold, by path ----

  ghost function EntriesOf(at: map<Path, TreeCache>): map<Path, map<string, Record>>
    reads at.Values
  {
    map p | p in at :: at[p].entries
  }

  ghost function KidsOf(at: map<Path, TreeCache>): map<Path, map<string, TreeCache>>
    reads at.Values
  {
    map p | p in at :: at[p].childNodes
  }

  ghost function Flatten(e: map<Path, map<string, Record>>): (f: Flat) {
    imap l: Loc | l.path in e && l.key in e[l.path] :: e[l.path][l.key]
  }

  /** The flat map a tree stands for. */
  ghost function Contents(at: map<Path, TreeCache>): (f: Flat)
    reads at.Values
  {
    Flatten(EntriesOf(at))
  }

  /** `at` holds exactly the nodes reachable from `root` over `kids`, by the path that reaches them,
      and no node is reached by two paths. */
  ghost predicate IsShape(root: TreeCache, at: map<Path, TreeCache>, kids: map<Path, map<string, TreeCache>>) {
    && Root in at && at[Root] == root
    && (forall p :: p in at ==> p in kids)
    && (forall p, k :: Sub(p, k) in at ==> p in at && k in kids[p])
    && (forall p, k :: p in at && k in kids[p] ==> Sub(p, k) in at && at[Sub(p, k)] == kids[p][k])
    && (forall p, q :: p in at && q in at && p != q ==> at[p] != at[q])
  }

  /** The heap below `root` is a tree, and `at` its nodes. */
  ghost predicate IsTree(root: TreeCache, at: map<Path, TreeCache>)
    reads at.Values
  {
    IsShape(root, at, KidsOf(at))
  }

  /** No node of one tree is a node of the other. */
  ghost predicate Apart(at: map<Path, TreeCache>, other: map<Path, TreeCache>) {
    forall p, q :: p in at && q in other ==> at[p] != other[q]
  }

  /** What `m` binds outside `base`. */
  ghost function Outside<T>(m: map<Path, T>, base: Path): map<Path, T> {
    map p | p in m && !Below(base, p) :: m[p]
  }

  /** `r` binds what `m` binds outside `base`, and below it what `sub` binds, moved there. */
  ghost predicate IsGraft<T>(r: map<Path, T>, m: map<Path, T>, base: Path, sub: map<Path, T>) {
    && (forall p :: p in r <==> if Below(base, p) then Strip(base, p) in sub else p in m)
    && (forall p :: p in r ==> r[p] == if Below(base, p) then sub[Strip(base, p)] else m[p])
  }

  class TreeCache {
    var childNodes: map<string, TreeCache>
    var entries: map<string, Record>

    constructor ()
      ensures childNodes == map[] && entries == map[]
    {
      childNodes, entries := map[], map[];
    }

    // ---- Changes to one node ----

    /** Gives this node, at `p`, and no other node of `at` or `other`, new children. */
    method Relink(kids: map<string, TreeCache>, ghost p: Path,
                  ghost at: map<Path, TreeCache>, ghost other: map<Path, TreeCache>)
      requires p in at && at[p] == this
      requires forall q :: q in at && q != p ==> at[q] != this
      requires forall q :: q in other ==> other[q] != this
      modifies this
      ensures KidsOf(at) == old(KidsOf(at))[p := kids] && EntriesOf(at) == old(EntriesOf(at))
      ensures KidsOf(other) == old(KidsOf(other)) && EntriesOf(other) == old(EntriesOf(other))
    {
      childNodes := kids;
    }

    /** Gives this node, at `p`, and no other node of `at`, new entries. */
    method Refill(entries: map<string, Record>, ghost p: Path, ghost at: map<Path, TreeCache>)
      requires p in at && at[p] == this
      requires forall q :: q in at && q != p ==> at[q] != this
      modifies this
      ensures KidsOf(at) == old(KidsOf(at)) && EntriesOf(at) == old(EntriesOf(at))[p := entries]
    {
      this.entries := entries;
    }

    /** Hangs the tree `sub` under key `k` of the node at `p`, in place of what was there. */
    method Link(node: TreeCache, k: string, sub: TreeCache, ghost p: Path, ghost at: map<Path, TreeCache>,
                ghost subAt: map<Path, TreeCache>)
      returns (ghost at': map<Path, TreeCache>)
      requires IsTree(this, at) && p in at && at[p] == node
      requires IsTree(sub, subAt) && Apart(at, subAt)
      modifies node
      ensures IsTree(this, at') && IsGraft(at', at, Sub(p, k), subAt)
      ensures IsGraft(EntriesOf(at'), old(EntriesOf(at)), Sub(p, k), old(EntriesOf(subAt)))
    {
      at' := GraftOf(at, Sub(p, k), subAt);
      node.Relink(node.childNodes[k := sub], p, at, subAt);
      PictureOfGraft(at', at, Sub(p, k), subAt);
      Grafting(at, old(KidsOf(at)), sub, subAt, KidsOf(subAt), p, k, at', KidsOf(at')).KeepsShape(this);
    }

    // ---- The operations of the cache ----

    method GetSubCache(path: seq<string>, ghost at: map<Path, TreeCache>) returns (node: TreeCache?)
      requires IsTree(this, at)
      ensures node == null <==> Walk(path) !in at
      ensures node != null ==> Walk(path) in at && node == at[Walk(path)]
    {
      node := this;
      for i := 0 to |path|
        invariant Walk(path[..i]) in at && node == at[Walk(path[..i])]
      {
        WalkStep(path, i);
        if path[i] !in node.childNodes {
          TreesArePrefixClosed(this, at, path, i + 1);
          return null;
        }
        node := node.childNodes[path[i]];
      }
      assert path[..|path|] == path;
    }

    method EnsureChildNode(path: seq<string>, ghost at: map<Path, TreeCache>)
      returns (node: TreeCache, ghost at': map<Path, TreeCache>)
      requires IsTree(this, at)
      modifies at.Values
      ensures IsTree(this, at') && Contents(at') == old(Contents(at))
      ensures Walk(path) in at' && node == at'[Walk(path)]
      ensures fresh(at'.Values - at.Values)
    {
      node, at' := this, at;
      for i := 0 to |path|
        invariant IsTree(this, at') && Contents(at') == old(Contents(at))
        invariant Walk(path[..i]) in at' && node == at'[Walk(path[..i])]
        invariant fresh(at'.Values - at.Values)
      {
        WalkStep(path, i);
        if path[i] in node.childNodes {
          node := node.childNodes[path[i]];
        } else {
          node, at' := AddChild(node, path[i], Walk(path[..i]), at');
        }
      }
      assert path[..|path|] == path;
    }

    /** One missing step of EnsureChildNode: a new, empty node under key `k` of the node at `p`. */
    method AddChild(node: TreeCache, k: string, ghost p: Path, ghost at: map<Path, TreeCache>)
      returns (n: TreeCache, ghost at': map<Path, TreeCache>)
      requires IsTree(this, at) && p in at && at[p] == node && k !in node.childNodes
      modifies node
      ensures IsTree(this, at') && Contents(at') == old(Contents(at))
      ensures Sub(p, k) in at' && n == at'[Sub(p, k)] && fresh(at'.Values - at.Values)
    {
      n := new TreeCache();
      ghost var single: map<Path, TreeCache> := map[Root := n];
      assert IsTree(n, single);
      NothingBelowAGap(this, at, Sub(p, k));
      at' := Link(node, k, n, p, at, single);
      assert Strip(Sub(p, k), Sub(p, k)) == Root;
      GraftOfNothing(EntriesOf(at'), old(EntriesOf(at)), Sub(p, k));
      GraftNodes(at', at, Sub(p, k), single);
    }

    /** Stores `val`, stamped with its etcd key, under `key` of the node at `path`. */
    method SetEntry(key: string, val: Record, etcdKey: string, path: seq<string>, ghost at: map<Path, TreeCache>)
      returns (ghost at': map<Path, TreeCache>)
      requires IsTree(this, at)
      modifies at.Values
      ensures IsTree(this, at') && fresh(at'.Values - at.Values)
      ensures Contents(at') == old(Contents(at))[Loc(Walk(path), key) := val.(key := etcdKey)]
    {
      var node;
      node, at' := EnsureChildNode(path, at);
      SettingOneEntry(EntriesOf(at'), Walk(path), key, val.(key := etcdKey));
      node.Refill(node.entries[key := val.(key := etcdKey)], Walk(path), at');
    }

    method GetEntry(key: string, path: seq<string>, ghost at: map<Path, TreeCache>) returns (r: Option<Record>)
      requires IsTree(this, at)
      ensures r == if Loc(Walk(path), key) in Contents(at) then Some(Contents(at)[Loc(Walk(path), key)]) else None
    {
      var node := GetSubCache(path, at);
      if node == null || key !in node.entries {
        return None;
      }
      return Some(node.entries[key]);
    }

    method DeleteEntry(key: string, path: seq<string>, ghost at: map<Path, TreeCache>) returns (found: bool)
      requires IsTree(this, at)
      modifies at.Values
      ensures IsTree(this, at)
      ensures found == (Loc(Walk(path), key) in old(Contents(at)))
      ensures Contents(at) == old(Contents(at)) - {Loc(Walk(path), key)}
    {
      var node := GetSubCache(path, at);
      if node == null || key !in node.entries {
        NothingToDrop(Contents(at), Loc(Walk(path), key));
        return false;
      }
      DroppingOneEntry(EntriesOf(at), Walk(path), key);
      node.Refill(node.entries - {key}, Walk(path), at);
      return true;
    }

    method DeletePath(path: seq<string>, ghost at: map<Path, TreeCache>)
      returns (found: bool, ghost at': map<Path, TreeCache>)
      requires IsTree(this, at)
      modifies at.Values
      ensures IsTree(this, at') && at'.Values <= at.Values
      ensures found == (path != [] && Walk(path) in at)
      ensures Contents(at') == if path == [] then old(Contents(at)) else Prune(old(Contents(at)), Walk(path))
    {
      if path == [] {
        return false, at;
      }
      hide IsShape, Below, Flatten;
      var parentNode := GetSubCache(Front(path), at);
      if parentNode != null {
        EntryOrChild(this, at, Walk(Front(path)), Last(path));
      } else {
        ParentIsThere(this, at, Walk(path));
      }
      if parentNode == null || Last(path) !in parentNode.childNodes {
        NothingBelowAGap(this, at, Walk(path));
        PruneNothing(at, Walk(path));
        return false, at;
      }
      at' := Outside(at, Walk(path));
      CutKeepsShape(this, at, KidsOf(at), Walk(Front(path)), Last(path));
      parentNode.Relink(parentNode.childNodes - {Last(path)}, Walk(Front(path)), at, map[]);
      PictureOfCut(at, Walk(path));
      return true, at';
    }

    method SetSubCache(key: string, subCache: TreeCache, path: seq<string>,
                       ghost at: map<Path, TreeCache>, ghost subAt: map<Path, TreeCache>)
      returns (ghost at': map<Path, TreeCache>)
      requires IsTree(this, at) && IsTree(subCache, subAt) && at.Values !! subAt.Values
      modifies at.Values
      ensures IsTree(this, at') && fresh(at'.Values - at.Values - subAt.Values)
      ensures Contents(at') == Graft(old(Contents(at)), Sub(Walk(path), key), old(Contents(subAt)))
    {
      hide IsTree, Flatten, EntriesOf;
      ghost var subEntries := EntriesOf(subAt);
      var node, at1 := EnsureChildNode(path, at);
      ghost var entries := EntriesOf(at1);
      ApartWhenDisjoint(at1, subAt);
      at' := Link(node, key, subCache, Walk(path), at1, subAt);
      GraftContents(EntriesOf(at'), entries, Sub(Walk(path), key), subEntries);
      GraftNodes(at', at1, Sub(Walk(path), key), subAt);
    }

    /** The records a query matches: those of `locs`, which are exactly the places that answer it. */
    method GetValuesForPathWithWildcards(path: seq<string>, ghost at: map<Path, TreeCache>)
      returns (retval: seq<Record>, ghost locs: seq<Loc>)
      requires IsTree(this, at)
      ensures Lists(Contents(at), locs, retval)
      ensures forall l :: l in locs <==> l in Contents(at) && Answers(Contents(at), path, l)
    {
      hide Lists;
      var nodesToExplore: seq<TreeCache> := [this];
      ghost var spots := [Root];
      if path == [] {
        retval, locs := AllEntries(nodesToExplore, spots, at);
        return;
      }
      for idx := 0 to |path| - 1
        invariant Frontier(nodesToExplore, spots, path[..idx], at)
      {
        assert path[..idx + 1] == path[..idx] + [path[idx]];
        nodesToExplore, spots := Descend(nodesToExplore, path[idx], spots, path[..idx], at);
      }
      assert path[..|path| - 1] == Front(path);
      if Last(path) == "*" {
        retval, locs := AllEntries(nodesToExplore, spots, at);
        return;
      }
      var next;
      ghost var nextSpots;
      retval, next, locs, nextSpots := LastName(nodesToExplore, Last(path), spots, at);
      var more, moreLocs := AllEntries(next, nextSpots, at);
      StemsFixTheDepth(Front(path));
      JoinLists(Contents(at), locs, retval, moreLocs, more);
      retval, locs := retval + more, locs + moreLocs;
    }
  }

  // ---- The wildcard search ----

  /** `nodes` are the nodes of the tree that the stem of a query reaches, each once. */
  ghost predicate Frontier(nodes: seq<TreeCache>, spots: seq<Path>, stem: seq<string>, at: map<Path, TreeCache>) {
    && Located(nodes, spots, at)
    && forall p :: p in spots <==> p in at && StemMatch(stem, p)
  }

  ghost predicate Located(nodes: seq<TreeCache>, spots: seq<Path>, at: map<Path, TreeCache>) {
    && |nodes| == |spots| && Distinct(spots)
    && forall i :: 0 <= i < |spots| ==> spots[i] in at && nodes[i] == at[spots[i]]
  }

  /** The children of one node that an inner label matches. */
  method MatchingChildren(node: TreeCache, pattern: string, ghost spot: Path, ghost at: map<Path, TreeCache>)
    returns (next: seq<TreeCache>, ghost nextSpots: seq<Path>)
    requires Root in at && IsTree(at[Root], at)
    requires spot in at && at[spot] == node
    ensures Located(next, nextSpots, at)
    ensures forall p :: p in nextSpots <==> p in at && p.Sub? && p.up == spot && LabelMatch(pattern, p.name)
  {
    next, nextSpots := [], [];
    if pattern != "*" {
      if pattern in node.childNodes {
        next, nextSpots := [node.childNodes[pattern]], [Sub(spot, pattern)];
      }
      return;
    }
    var keys := node.childNodes.Keys;
    while keys != {}
      invariant keys <= node.childNodes.Keys
      invariant Located(next, nextSpots, at)
      invariant forall p :: p in nextSpots <==>
                  p in at && p.Sub? && p.up == spot && p.name !in keys && LabelMatch(pattern, p.name)
    {
      var k :| k in keys;
      keys := keys - {k};
      if !HasPrefix(k, "_") {
        next, nextSpots := next + [node.childNodes[k]], nextSpots + [Sub(spot, k)];
      }
    }
  }

  /** One inner label of the query: from the nodes of one level to the matching nodes of the next. */
  method Descend(nodes: seq<TreeCache>, pattern: string, ghost spots: seq<Path>, ghost stem: seq<string>,
                 ghost at: map<Path, TreeCache>)
    returns (next: seq<TreeCache>, ghost nextSpots: seq<Path>)
    requires Root in at && IsTree(at[Root], at) && Frontier(nodes, spots, stem, at)
    ensures Frontier(next, nextSpots, stem + [pattern], at)
  {
    next, nextSpots := [], [];
    for i := 0 to |nodes|
      invariant Located(next, nextSpots, at)
      invariant forall p :: p in nextSpots <==>
                  p in at && p.Sub? && p.up in spots[..i] && LabelMatch(pattern, p.name)
    {
      var found, foundSpots := MatchingChildren(nodes[i], pattern, spots[i], at);
      TakeOneMore(spots, i);
      JoinLocated(next, nextSpots, found, foundSpots, at);
      next, nextSpots := next + found, nextSpots + foundSpots;
    }
    assert spots[..|nodes|] == spots;
    StemStep(stem, pattern);
    assert forall p, k :: Sub(p, k) in at ==> p in at;
  }

  lemma JoinLocated(a: seq<TreeCache>, aSpots: seq<Path>, b: seq<TreeCache>, bSpots: seq<Path>, at: map<Path, TreeCache>)
    requires Located(a, aSpots, at) && Located(b, bSpots, at)
    requires forall p :: p in aSpots ==> p !in bSpots
    ensures Located(a + b, aSpots + bSpots, at)
  {
    DistinctConcat(aSpots, bSpots);
  }

  lemma JoinLists(f: Flat, a: seq<Loc>, aRecs: seq<Record>, b: seq<Loc>, bRecs: seq<Record>)
    requires Lists(f, a, aRecs) && Lists(f, b, bRecs)
    requires forall l :: l in a ==> l !in b
    ensures Lists(f, a + b, aRecs + bRecs)
  {
    DistinctConcat(a, b);
  }

  lemma TakeOneMore<T>(s: seq<T>, i: nat)
    requires i < |s|
    ensures s[..i + 1] == s[..i] + [s[i]]
    ensures Distinct(s) ==> s[i] !in s[..i]
  {
  }

  lemma DistinctConcat<T>(a: seq<T>, b: seq<T>)
    requires Distinct(a) && Distinct(b) && forall x :: x in a ==> x !in b
    ensures Distinct(a + b)
  {
    forall i, j | 0 <= i < j < |a + b| ensures (a + b)[i] != (a + b)[j] {
      if i < |a| <= j {
        assert a[i] in a && b[j - |a|] in b;
      }
    }
  }

  method NodeEntries(node: TreeCache, ghost spot: Path, ghost at: map<Path, TreeCache>)
    returns (recs: seq<Record>, ghost locs: seq<Loc>)
    requires spot in at && at[spot] == node
    ensures Lists(Contents(at), locs, recs)
    ensures forall l :: l in locs <==> l in Contents(at) && l.path == spot
  {
    recs, locs := [], [];
    var keys := node.entries.Keys;
    while keys != {}
      invariant keys <= node.entries.Keys
      invariant Lists(Contents(at), locs, recs)
      invariant forall l :: l in locs <==> l in Contents(at) && l.path == spot && l.key !in keys
    {
      var k :| k in keys;
      keys := keys - {k};
      recs, locs := recs + [node.entries[k]], locs + [Loc(spot, k)];
    }
  }

  /** All entries of the given nodes. */
  method AllEntries(nodes: seq<TreeCache>, ghost spots: seq<Path>, ghost at: map<Path, TreeCache>)
    returns (recs: seq<Record>, ghost locs: seq<Loc>)
    requires Located(nodes, spots, at)
    ensures Lists(Contents(at), locs, recs)
    ensures forall l :: l in locs <==> l in Contents(at) && l.path in spots
  {
    recs, locs := [], [];
    for i := 0 to |nodes|
      invariant Lists(Contents(at), locs, recs)
      invariant forall l :: l in locs <==> l in Contents(at) && l.path in spots[..i]
    {
      var more, moreLocs := NodeEntries(nodes[i], spots[i], at);
      TakeOneMore(spots, i);
      JoinLists(Contents(at), locs, recs, moreLocs, more);
      recs, locs := recs + more, locs + moreLocs;
    }
    assert spots[..|nodes|] == spots;
  }

  /** A final name: the entries so called, and the children so called of the nodes without one. */
  method LastName(nodes: seq<TreeCache>, name: string, ghost spots: seq<Path>, ghost at: map<Path, TreeCache>)
    returns (recs: seq<Record>, next: seq<TreeCache>, ghost locs: seq<Loc>, ghost nextSpots: seq<Path>)
    requires Root in at && IsTree(at[Root], at) && Located(nodes, spots, at)
    ensures Lists(Contents(at), locs, recs) && Located(next, nextSpots, at)
    ensures forall l :: l in locs <==> l in Contents(at) && l.key == name && l.path in spots
    ensures forall p :: p in nextSpots <==>
              p in at && p.Sub? && p.name == name && p.up in spots && Loc(p.up, name) !in Contents(at)
  {
    hide IsTree, IsShape, Contents;
    recs, next, locs, nextSpots := [], [], [], [];
    for i := 0 to |nodes|
      invariant Lists(Contents(at), locs, recs) && Located(next, nextSpots, at)
      invariant forall l :: l in locs <==> l in Contents(at) && l.key == name && l.path in spots[..i]
      invariant forall p :: p in nextSpots <==>
                  p in at && p.Sub? && p.name == name && p.up in spots[..i] && Loc(p.up, name) !in Contents(at)
    {
      TakeOneMore(spots, i);
      EntryOrChild(at[Root], at, spots[i], name);
      if name in nodes[i].entries {
        JoinLists(Contents(at), locs, recs, [Loc(spots[i], name)], [nodes[i].entries[name]]);
        recs, locs := recs + [nodes[i].entries[name]], locs + [Loc(spots[i], name)];
      } else if name in nodes[i].childNodes {
        JoinLocated(next, nextSpots, [nodes[i].childNodes[name]], [Sub(spots[i], name)], at);
        next, nextSpots := next + [nodes[i].childNodes[name]], nextSpots + [Sub(spots[i], name)];
      }
    }
    assert spots[..|nodes|] == spots;
  }

  /** What a node holds under one name, said of the whole tree. */
  lemma EntryOrChild(root: TreeCache, at: map<Path, TreeCache>, p: Path, k: string)
    requires IsTree(root, at) && p in at
    ensures k in at[p].entries <==> Loc(p, k) in Contents(at)
    ensures k in at[p].entries ==> Contents(at)[Loc(p, k)] == at[p].entries[k]
    ensures k in at[p].childNodes <==> Sub(p, k) in at
    ensures k in at[p].childNodes ==> at[p].childNodes[k] == at[Sub(p, k)]
  {
  }

  // ---- Paths ----

  lemma WalkStep(path: seq<string>, i: nat)
    requires i < |path|
    ensures Walk(path[..i + 1]) == Sub(Walk(path[..i]), path[i])
  {
    assert Front(path[..i + 1]) == path[..i];
  }

  lemma {:induction false} TreesArePrefixClosed(root: TreeCache, at: map<Path, TreeCache>, path: seq<string>, n: nat)
    requires IsTree(root, at) && n <= |path|
    ensures Walk(path) in at ==> Walk(path[..n]) in at
    decreases |path|
  {
    hide IsTree;
    if n < |path| {
      TreesArePrefixClosed(root, at, Front(path), n);
      assert Front(path)[..n] == path[..n];
      if Walk(Front(path)) !in at { ParentIsThere(root, at, Walk(path)); }
    } else {
      assert path[..n] == path;
    }
  }

  /** A path that is not in the tree has no descendants there. */
  lemma NothingBelowAGap(root: TreeCache, at: map<Path, TreeCache>, base: Path)
    requires IsTree(root, at) && base !in at
    ensures forall p :: p in at ==> !Below(base, p)
  {
    forall p | p in at ensures !Below(base, p) { GapAbove(root, at, base, p); }
  }

  lemma {:induction false} GapAbove(root: TreeCache, at: map<Path, TreeCache>, base: Path, p: Path)
    requires IsTree(root, at) && base !in at && p in at
    ensures !Below(base, p)
  {
    if p.Sub? {
      assert Sub(p.up, p.name) in at;
      GapAbove(root, at, base, p.up);
    }
  }

  lemma {:induction false} DeeperBelow(base: Path, p: Path)
    requires Below(base, p)
    ensures Depth(base) <= Depth(p)
  {
    if p != base { DeeperBelow(base, p.up); }
  }

  lemma NotBelowItsChild(p: Path, k: string)
    ensures !Below(Sub(p, k), p)
  {
    if Below(Sub(p, k), p) { DeeperBelow(Sub(p, k), p); }
  }

  lemma StemStep(stem: seq<string>, pattern: string)
    ensures forall p :: StemMatch(stem + [pattern], p) <==> p.Sub? && LabelMatch(pattern, p.name) && StemMatch(stem, p.up)
  {
    assert Front(stem + [pattern]) == stem;
  }

  lemma {:induction false} StemDepth(stem: seq<string>, p: Path)
    requires StemMatch(stem, p)
    ensures Depth(p) == |stem|
  {
    if stem != [] { StemDepth(Front(stem), p.up); }
  }

  lemma StemsFixTheDepth(stem: seq<string>)
    ensures forall p :: StemMatch(stem, p) ==> Depth(p) == |stem|
  {
    forall p | StemMatch(stem, p) ensures Depth(p) == |stem| { StemDepth(stem, p); }
  }

  // ---- Entries ----

  lemma SettingOneEntry(e: map<Path, map<string, Record>>, p: Path, k: string, r: Record)
    requires p in e
    ensures Flatten(e[p := e[p][k := r]]) == Flatten(e)[Loc(p, k) := r]
  {
  }

  lemma DroppingOneEntry(e: map<Path, map<string, Record>>, p: Path, k: string)
    requires p in e
    ensures Flatten(e[p := e[p] - {k}]) == Flatten(e) - {Loc(p, k)}
  {
  }

  lemma NothingToDrop(f: Flat, l: Loc)
    requires l !in f
    ensures f - {l} == f
  {
  }

  // ---- Cutting a subtree off ----

  lemma ParentIsThere(root: TreeCache, at: map<Path, TreeCache>, p: Path)
    requires IsTree(root, at) && p.Sub? && p.up !in at
    ensures p !in at
  {
    assert Sub(p.up, p.name) == p;
  }

  lemma PruneNothing(at: map<Path, TreeCache>, base: Path)
    requires forall p :: p in at ==> !Below(base, p)
    ensures Prune(Contents(at), base) == Contents(at)
  {
    hide Below;
  }

  lemma CutKeepsShape(root: TreeCache, at: map<Path, TreeCache>, kids: map<Path, map<string, TreeCache>>, p: Path, k: string)
    requires IsShape(root, at, kids) && p in at
    ensures IsShape(root, Outside(at, Sub(p, k)), Outside(kids[p := kids[p] - {k}], Sub(p, k)))
  {
    var base := Sub(p, k);
    var at', kids' := Outside(at, base), Outside(kids[p := kids[p] - {k}], base);
    hide Below;
    RootIsOutside(p, k);
    forall q, j | Sub(q, j) in at' ensures q in at' && j in kids'[q] { BelowStep(base, q, j); }
    forall q, j | q in at' && j in kids'[q] ensures Sub(q, j) in at' && at'[Sub(q, j)] == kids'[q][j] {
      BelowStep(base, q, j);
    }
  }

  lemma RootIsOutside(p: Path, k: string)
    ensures !Below(Sub(p, k), Root)
  {
  }

  lemma BelowStep(base: Path, q: Path, j: string)
    ensures Below(base, Sub(q, j)) <==> base == Sub(q, j) || Below(base, q)
  {
  }

  lemma PictureOfCut(at: map<Path, TreeCache>, base: Path)
    ensures KidsOf(Outside(at, base)) == Outside(KidsOf(at), base)
    ensures Contents(Outside(at, base)) == Prune(Contents(at), base)
  {
  }

  // ---- Hanging a subtree in ----

  lemma ApartWhenDisjoint(at: map<Path, TreeCache>, other: map<Path, TreeCache>)
    requires at.Values !! other.Values
    ensures Apart(at, other)
  {
    assert forall p :: p in at ==> at[p] in at.Values;
    assert forall q :: q in other ==> other[q] in other.Values;
  }

  lemma GraftOf<T>(m: map<Path, T>, base: Path, sub: map<Path, T>) returns (r: map<Path, T>)
    ensures IsGraft(r, m, base, sub)
  {
    var moved := set q | q in sub :: Plus(base, q);
    r := map p | p in m.Keys + moved && if Below(base, p) then Strip(base, p) in sub else p in m
      :: if Below(base, p) then sub[Strip(base, p)] else m[p];
  }

  /** After a graft of the nodes, the entries and the child maps are grafts as well. */
  lemma PictureOfGraft(at': map<Path, TreeCache>, at: map<Path, TreeCache>, base: Path, subAt: map<Path, TreeCache>)
    requires IsGraft(at', at, base, subAt)
    ensures IsGraft(EntriesOf(at'), EntriesOf(at), base, EntriesOf(subAt))
    ensures IsGraft(KidsOf(at'), KidsOf(at), base, KidsOf(subAt))
  {
  }

  lemma GraftNodes(at': map<Path, TreeCache>, at: map<Path, TreeCache>, base: Path, subAt: map<Path, TreeCache>)
    requires IsGraft(at', at, base, subAt)
    ensures at'.Values <= at.Values + subAt.Values
  {
  }

  lemma GraftOfNothing(r: map<Path, map<string, Record>>, e: map<Path, map<string, Record>>, base: Path)
    requires IsGraft(r, e, base, map[Root := map[]]) && forall p :: p in e ==> !Below(base, p)
    ensures Flatten(r) == Flatten(e)
  {
  }

  lemma GraftContents(r: map<Path, map<string, Record>>, e: map<Path, map<string, Record>>, base: Path,
                      sub: map<Path, map<string, Record>>)
    requires IsGraft(r, e, base, sub)
    ensures Flatten(r) == Graft(Flatten(e), base, Flatten(sub))
  {
  }

  /** A picture of hanging one tree into another: `kids` and `kids'` are the child maps before and after. */
  datatype Grafting = Grafting(at: map<Path, TreeCache>, kids: map<Path, map<string, TreeCache>>, sub: TreeCache,
                               subAt: map<Path, TreeCache>, subKids: map<Path, map<string, TreeCache>>,
                               p: Path, k: string,
                               at': map<Path, TreeCache>, kids': map<Path, map<string, TreeCache>>)
  {
    ghost predicate Sound(root: TreeCache) {
      && IsShape(root, at, kids) && IsShape(sub, subAt, subKids) && Apart(at, subAt) && p in at
      && IsGraft(at', at, Sub(p, k), subAt)
      && IsGraft(kids', kids[p := kids[p][k := sub]], Sub(p, k), subKids)
    }

    lemma LinksUp(root: TreeCache)
      requires Sound(root)
      ensures forall q, j :: Sub(q, j) in at' ==> q in at' && j in kids'[q]
    {
      var base := Sub(p, k);
      NotBelowItsChild(p, k);
      forall q, j | Sub(q, j) in at' ensures q in at' && j in kids'[q] {
        if Sub(q, j) != base && Below(base, q) {
          assert Strip(base, Sub(q, j)) == Sub(Strip(base, q), j);
        }
      }
    }

    lemma LinksDown(root: TreeCache)
      requires Sound(root)
      ensures forall q, j :: q in at' && j in kids'[q] ==> Sub(q, j) in at' && at'[Sub(q, j)] == kids'[q][j]
    {
      var base := Sub(p, k);
      NotBelowItsChild(p, k);
      forall q, j | q in at' && j in kids'[q] ensures Sub(q, j) in at' && at'[Sub(q, j)] == kids'[q][j] {
        if Sub(q, j) != base && Below(base, q) {
          assert Strip(base, Sub(q, j)) == Sub(Strip(base, q), j);
        }
      }
    }

    lemma KeepsShape(root: TreeCache)
      requires Sound(root)
      ensures IsShape(root, at', kids')
    {
      GraftSharesNoNode(at, subAt, Sub(p, k), at');
      LinksUp(root);
      LinksDown(root);
    }
  }

  lemma GraftSharesNoNode(at: map<Path, TreeCache>, subAt: map<Path, TreeCache>, base: Path, at': map<Path, TreeCache>)
    requires forall p, q :: p in at && q in at && p != q ==> at[p] != at[q]
    requires forall p, q :: p in subAt && q in subAt && p != q ==> subAt[p] != subAt[q]
    requires Apart(at, subAt) && IsGraft(at', at, base, subAt)
    ensures forall p, q :: p in at' && q in at' && p != q ==> at'[p] != at'[q]
  {
    forall p, q | p in at' && q in at' && p != q ensures at'[p] != at'[q] {
      if Below(base, p) && Below(base, q) {
        assert Strip(base, p) != Strip(base, q);
      }
    }
  }
}
