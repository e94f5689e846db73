/** Which API versions and resources are served (pkg/genericapiserver): the configuration object, and
    the merge of user overrides into it. Go visits a map in an order of its own choosing; here that
    order is an argument, and the theorems quantify over it. */
module ResourceConfigs {
  import opened Text
  import opened Wrappers

  datatype GroupVersion = GroupVersion(group: string, version: string)

  datatype VersionConfig = VersionConfig(enable: bool, disabled: set<string>, enabled: set<string>)

  type Configs = map<GroupVersion, VersionConfig>

  type Overrides = map<string, string>

  const NEW_CONFIG := VersionConfig(true, {}, {})

  // ---- The configuration object ----

  function Get(c: Configs, gv: GroupVersion): VersionConfig {
    if gv in c then c[gv] else NEW_CONFIG
  }

  predicate AnyResourcesForVersionEnabled(c: Configs, gv: GroupVersion) { gv in c && c[gv].enable }

  predicate ResourceEnabled(c: Configs, gv: GroupVersion, resource: string) {
    && gv in c && c[gv].enable && resource !in c[gv].disabled
    && (c[gv].enabled != {} ==> resource in c[gv].enabled)
  }

  function SetVersion(c: Configs, gv: GroupVersion, on: bool): Configs {
    c[gv := Get(c, gv).(enable := on)]
  }

  function SetResource(c: Configs, gv: GroupVersion, resource: string, on: bool): Configs {
    var v := Get(c, gv);
    c[gv := if on then v.(enabled := v.enabled + {resource}, disabled := v.disabled - {resource})
            else v.(disabled := v.disabled + {resource})]
  }

  class ResourceConfig {
    var configs: Configs

    constructor (configs: Configs)
      ensures this.configs == configs
    {
      this.configs := configs;
    }

    method EnableVersions(versions: seq<GroupVersion>)
      modifies this
      ensures VersionsSet(old(configs), versions, true, configs)
    {
      for i := 0 to |versions|
        invariant VersionsSet(old(configs), versions[..i], true, configs)
      {
        if versions[i] !in configs {
          configs := configs[versions[i] := NEW_CONFIG];
        }
        configs := configs[versions[i] := configs[versions[i]].(enable := true)];
      }
    }

    method DisableVersions(versions: seq<GroupVersion>)
      modifies this
      ensures VersionsSet(old(configs), versions, false, configs)
    {
      for i := 0 to |versions|
        invariant VersionsSet(old(configs), versions[..i], false, configs)
      {
        if versions[i] !in configs {
          configs := configs[versions[i] := NEW_CONFIG];
        }
        configs := configs[versions[i] := configs[versions[i]].(enable := false)];
      }
    }

    method EnableResources(resources: seq<(GroupVersion, string)>)
      modifies this
      ensures ResourcesSet(old(configs), resources, true, configs)
    {
      hide ResourcesSet;
      NothingSet(configs, true);
      for i := 0 to |resources|
        invariant ResourcesSet(old(configs), resources[..i], true, configs)
      {
        var (gv, resource) := resources[i];
        ghost var before := configs;
        ResourcesSetOneMore(old(configs), resources[..i], configs, gv, resource, true);
        assert resources[..i + 1] == resources[..i] + [(gv, resource)];
        if gv !in configs {
          configs := configs[gv := NEW_CONFIG];
        }
        configs := configs[gv := configs[gv].(enabled := configs[gv].enabled + {resource})];
        configs := configs[gv := configs[gv].(disabled := configs[gv].disabled - {resource})];
        assert configs == SetResource(before, gv, resource, true);
      }
      assert resources[..|resources|] == resources;
    }

    method DisableResources(resources: seq<(GroupVersion, string)>)
      modifies this
      ensures ResourcesSet(old(configs), resources, false, configs)
    {
      hide ResourcesSet;
      NothingSet(configs, false);
      for i := 0 to |resources|
        invariant ResourcesSet(old(configs), resources[..i], false, configs)
      {
        var (gv, resource) := resources[i];
        ghost var before := configs;
        ResourcesSetOneMore(old(configs), resources[..i], configs, gv, resource, false);
        assert resources[..i + 1] == resources[..i] + [(gv, resource)];
        if gv !in configs {
          configs := configs[gv := NEW_CONFIG];
        }
        configs := configs[gv := configs[gv].(disabled := configs[gv].disabled + {resource})];
        assert configs == SetResource(before, gv, resource, false);
      }
      assert resources[..|resources|] == resources;
    }
  }

  /** `after` is `before` with exactly `versions` switched to `on`. */
  ghost predicate VersionsSet(before: Configs, versions: seq<GroupVersion>, on: bool, after: Configs) {
    forall gv ::
      && (gv in after <==> gv in before || gv in versions)
      && (gv in after ==> after[gv] == if gv in versions then Get(before, gv).(enable := on) else before[gv])
  }

  /** `after` is `before` with exactly `resources` switched to `on`. */
  ghost predicate ResourcesSet(before: Configs, resources: seq<(GroupVersion, string)>, on: bool, after: Configs) {
    forall gv ::
      && (gv in after <==> gv in before || exists r :: (gv, r) in resources)
      && (gv in after ==>
            && after[gv].enable == Get(before, gv).enable
            && (forall r :: r in after[gv].enabled <==> r in Get(before, gv).enabled || (on && (gv, r) in resources))
            && (forall r :: r in after[gv].disabled <==>
                  if (gv, r) in resources then !on else r in Get(before, gv).disabled))
  }

  lemma NothingSet(c: Configs, on: bool)
    ensures ResourcesSet(c, [], on, c)
  {
  }

  lemma ResourcesSetOneMore(before: Configs, resources: seq<(GroupVersion, string)>, c: Configs,
                            gv: GroupVersion, resource: string, on: bool)
    requires ResourcesSet(before, resources, on, c)
    ensures ResourcesSet(before, resources + [(gv, resource)], on, SetResource(c, gv, resource, on))
  {
    var more := resources + [(gv, resource)];
    assert forall g, r :: (g, r) in more <==> (g, r) in resources || (g == gv && r == resource);
    assert (gv, resource) in more;
  }

  lemma OneVersionSet(before: Configs, gv: GroupVersion, on: bool, after: Configs)
    requires VersionsSet(before, [gv], on, after)
    ensures after == SetVersion(before, gv, on)
  {
  }

  lemma OneResourceSet(before: Configs, gv: GroupVersion, resource: string, on: bool, after: Configs)
    requires ResourcesSet(before, [(gv, resource)], on, after)
    ensures after == SetResource(before, gv, resource, on)
  {
    var expected := SetResource(before, gv, resource, on);
    assert forall g, r :: (g, r) in [(gv, resource)] <==> g == gv && r == resource;
    assert (gv, resource) in [(gv, resource)];
    forall g
      ensures g in after <==> g in expected
      ensures g in after ==> after[g] == expected[g]
    {
      if g in after {
        assert after[g].enabled == expected[g].enabled;
        assert after[g].disabled == expected[g].disabled;
      }
    }
  }

  // ---- Override keys ----

  function ParseGroupVersion(gv: string): Option<GroupVersion> {
    if gv == "" || gv == "/" then Some(GroupVersion("", ""))
    else
      var parts := Split(gv, "/");
      if |parts| == 1 then Some(GroupVersion("", gv))
      else if |parts| == 2 then Some(GroupVersion(parts[0], parts[1]))
      else None
  }

  /** The group version that the first two tokens of a key name; "api/v1" is the legacy "v1". */
  function VersionOf(key: string): Option<GroupVersion> {
    var tokens := Split(key, "/");
    if |tokens| < 2 then None
    else
      var s := tokens[0] + "/" + tokens[1];
      ParseGroupVersion(if s == "api/v1" then "v1" else s)
  }

  predicate IsVersionKey(key: string) {
    key != "api/all" && key != "api/legacy" && |Split(key, "/")| == 2
  }

  predicate IsResourceKey(key: string) { |Split(key, "/")| == 3 }

  function ResourceOf(key: string): string
    requires IsResourceKey(key)
  {
    Split(key, "/")[2]
  }

  function ParseBool(s: string): Option<bool> {
    if s in {"1", "t", "T", "true", "TRUE", "True"} then Some(true)
    else if s in {"0", "f", "F", "false", "FALSE", "False"} then Some(false)
    else None
  }

  function RuntimeConfigValue(overrides: Overrides, key: string, absent: bool): Option<bool> {
    if key !in overrides then Some(absent)
    else if overrides[key] == "" then Some(true)
    else ParseBool(overrides[key])
  }

  function Value(overrides: Overrides, key: string): Option<bool> { RuntimeConfigValue(overrides, key, false) }

  // ---- The merge, for given orders of iteration ----

  /** The key names a registered group version, and its value can be read. */
  predicate KeyOk(overrides: Overrides, registered: seq<GroupVersion>, key: string) {
    && VersionOf(key).Some? && VersionOf(key).value in registered
    && Value(overrides, key).Some?
  }

  predicate DisablesAll(overrides: Overrides) { "api/all" in overrides && overrides["api/all"] == "false" }

  /** The configuration after "api/all" has been looked at. */
  function AfterAll(base: Configs, overrides: Overrides, registered: seq<GroupVersion>): Configs {
    if DisablesAll(overrides)
    then map gv | gv in base :: if gv in registered then base[gv].(enable := false) else base[gv]
    else base
  }

  function VersionPass(base: Configs, overrides: Overrides, registered: seq<GroupVersion>, order: seq<string>)
    : Option<Configs>
  {
    if order == [] then Some(base)
    else
      var key := order[|order| - 1];
      var c := VersionPass(base, overrides, registered, order[..|order| - 1]);
      if c.None? || !IsVersionKey(key) then c
      else if !KeyOk(overrides, registered, key) then None
      else Some(SetVersion(c.value, VersionOf(key).value, Value(overrides, key).value))
  }

  function ResourcePass(base: Configs, overrides: Overrides, registered: seq<GroupVersion>, order: seq<string>)
    : Option<Configs>
  {
    if order == [] then Some(base)
    else
      var key := order[|order| - 1];
      var c := ResourcePass(base, overrides, registered, order[..|order| - 1]);
      if c.None? || !IsResourceKey(key) then c
      else if !KeyOk(overrides, registered, key) then None
      else if !AnyResourcesForVersionEnabled(c.value, VersionOf(key).value) then None
      else Some(SetResource(c.value, VersionOf(key).value, ResourceOf(key), Value(overrides, key).value))
  }

  /** What the merge yields when the two loops visit the overrides in these orders; `None` is an error. */
  function Merged(base: Configs, overrides: Overrides, registered: seq<GroupVersion>,
                  first: seq<string>, second: seq<string>): Option<Configs>
  {
    var c := VersionPass(AfterAll(base, overrides, registered), overrides, registered, first);
    if c.None? then None else ResourcePass(c.value, overrides, registered, second)
  }

  ghost predicate IsOrder(overrides: Overrides, order: seq<string>) {
    && (forall k :: k in order <==> k in overrides)
    && (forall i, j :: 0 <= i < j < |order| ==> order[i] != order[j])
  }

  method DisableRegistered(config: ResourceConfig, registered: seq<GroupVersion>, ghost overrides: Overrides)
    requires DisablesAll(overrides)
    modifies config
    ensures config.configs == AfterAll(old(config.configs), overrides, registered)
  {
    for i := 0 to |registered|
      invariant config.configs == AfterAll(old(config.configs), overrides, registered[..i])
    {
      ghost var before := config.configs;
      if AnyResourcesForVersionEnabled(config.configs, registered[i]) {
        config.DisableVersions([registered[i]]);
        OneVersionSet(before, registered[i], false, config.configs);
      }
      assert registered[..i + 1] == registered[..i] + [registered[i]];
    }
    assert registered[..|registered|] == registered;
  }

  method MergeVersions(config: ResourceConfig, overrides: Overrides, registered: seq<GroupVersion>, order: seq<string>)
    returns (ok: bool)
    modifies config
    ensures ok <==> VersionPass(old(config.configs), overrides, registered, order).Some?
    ensures ok ==> VersionPass(old(config.configs), overrides, registered, order) == Some(config.configs)
  {
    hide VersionsSet, VersionOf, IsVersionKey, Value;
    for i := 0 to |order|
      invariant VersionPass(old(config.configs), overrides, registered, order[..i]) == Some(config.configs)
    {
      assert order[..i + 1][..i] == order[..i];
      var key := order[i];
      if IsVersionKey(key) {
        if VersionOf(key).None? || VersionOf(key).value !in registered || Value(overrides, key).None? {
          VersionPassFails(old(config.configs), overrides, registered, order, i + 1);
          return false;
        }
        var gv := VersionOf(key).value;
        ghost var before := config.configs;
        if Value(overrides, key).value {
          config.EnableVersions([gv]);
        } else {
          config.DisableVersions([gv]);
        }
        OneVersionSet(before, gv, Value(overrides, key).value, config.configs);
      }
    }
    assert order[..|order|] == order;
    return true;
  }

  lemma {:induction false} VersionPassFails(base: Configs, overrides: Overrides, registered: seq<GroupVersion>,
                                            order: seq<string>, n: nat)
    requires n <= |order| && VersionPass(base, overrides, registered, order[..n]).None?
    ensures VersionPass(base, overrides, registered, order).None?
    decreases |order|
  {
    if n == |order| {
      assert order[..n] == order;
    } else {
      var front := order[..|order| - 1];
      assert front[..n] == order[..n];
      VersionPassFails(base, overrides, registered, front, n);
    }
  }

  method MergeResources(config: ResourceConfig, overrides: Overrides, registered: seq<GroupVersion>, order: seq<string>)
    returns (ok: bool)
    modifies config
    ensures ok <==> ResourcePass(old(config.configs), overrides, registered, order).Some?
    ensures ok ==> ResourcePass(old(config.configs), overrides, registered, order) == Some(config.configs)
  {
    hide ResourcesSet, VersionOf, Value;
    for i := 0 to |order|
      invariant ResourcePass(old(config.configs), overrides, registered, order[..i]) == Some(config.configs)
    {
      assert order[..i + 1][..i] == order[..i];
      var key := order[i];
      if IsResourceKey(key) {
        if VersionOf(key).None? || VersionOf(key).value !in registered
           || !AnyResourcesForVersionEnabled(config.configs, VersionOf(key).value) || Value(overrides, key).None? {
          ResourcePassFails(old(config.configs), overrides, registered, order, i + 1);
          return false;
        }
        var gv := VersionOf(key).value;
        ghost var before := config.configs;
        if Value(overrides, key).value {
          config.EnableResources([(gv, ResourceOf(key))]);
        } else {
          config.DisableResources([(gv, ResourceOf(key))]);
        }
        OneResourceSet(before, gv, ResourceOf(key), Value(overrides, key).value, config.configs);
      }
    }
    assert order[..|order|] == order;
    return true;
  }

  lemma {:induction false} ResourcePassFails(base: Configs, overrides: Overrides, registered: seq<GroupVersion>,
                                             order: seq<string>, n: nat)
    requires n <= |order| && ResourcePass(base, overrides, registered, order[..n]).None?
    ensures ResourcePass(base, overrides, registered, order).None?
    decreases |order|
  {
    if n == |order| {
      assert order[..n] == order;
    } else {
      var front := order[..|order| - 1];
      assert front[..n] == order[..n];
      ResourcePassFails(base, overrides, registered, front, n);
    }
  }

  /** mergeAPIResourceConfigs: whatever orders the map iterations take, the outcome is `Merged` in them. */
  method MergeAPIResourceConfigs(config: ResourceConfig, overrides: Overrides, registered: seq<GroupVersion>,
                                 first: seq<string>, second: seq<string>)
    returns (ok: bool)
    requires IsOrder(overrides, first) && IsOrder(overrides, second)
    modifies config
    ensures ok <==> Merged(old(config.configs), overrides, registered, first, second).Some?
    ensures ok ==> Merged(old(config.configs), overrides, registered, first, second) == Some(config.configs)
  {
    if DisablesAll(overrides) {
      DisableRegistered(config, registered, overrides);
    }
    ok := MergeVersions(config, overrides, registered, first);
    if !ok {
      return false;
    }
    ok := MergeResources(config, overrides, registered, second);
  }

  // ---- Order does not matter, unless two keys disagree ----

  /** Among `keys`, a version key sets `gv` to `on`. */
  ghost predicate SetsVersion(overrides: Overrides, keys: seq<string>, gv: GroupVersion, on: bool) {
    exists k :: k in keys && IsVersionKey(k) && VersionOf(k) == Some(gv) && Value(overrides, k) == Some(on)
  }

  /** Among `keys`, a resource key sets `resource` of `gv` to `on`. */
  ghost predicate SetsResource(overrides: Overrides, keys: seq<string>, gv: GroupVersion, resource: string, on: bool) {
    exists k :: k in keys && IsResourceKey(k) && VersionOf(k) == Some(gv) && ResourceOf(k) == resource
                && Value(overrides, k) == Some(on)
  }

  /** Both keys name one version, or one resource. */
  predicate SameTarget(k: string, j: string) {
    && VersionOf(k).Some? && VersionOf(k) == VersionOf(j)
    && ((IsVersionKey(k) && IsVersionKey(j))
        || (IsResourceKey(k) && IsResourceKey(j) && ResourceOf(k) == ResourceOf(j)))
  }

  /** No key switches on what another switches off. */
  ghost predicate Consistent(overrides: Overrides) {
    forall k, j :: k in overrides && j in overrides && SameTarget(k, j) ==>
      !(Value(overrides, k) == Some(true) && Value(overrides, j) == Some(false))
  }

  ghost predicate VersionMergedAt(base: Configs, overrides: Overrides, keys: seq<string>, c: Configs, gv: GroupVersion) {
    && (gv in c <==> gv in base || SetsVersion(overrides, keys, gv, true) || SetsVersion(overrides, keys, gv, false))
    && (gv in c ==> c[gv] == Get(base, gv).(enable :=
          if SetsVersion(overrides, keys, gv, true) then true
          else if SetsVersion(overrides, keys, gv, false) then false
          else Get(base, gv).enable))
  }

  /** What the version keys amount to, whatever their order. */
  ghost predicate VersionsMerged(base: Configs, overrides: Overrides, keys: seq<string>, c: Configs) {
    forall gv :: VersionMergedAt(base, overrides, keys, c, gv)
  }

  ghost predicate ResourceMergedAt(base: Configs, overrides: Overrides, keys: seq<string>, c: Configs,
                                   gv: GroupVersion, resource: string)
    requires gv in base && gv in c
  {
    var on := SetsResource(overrides, keys, gv, resource, true);
    && (resource in c[gv].enabled <==> resource in base[gv].enabled || on)
    && (resource in c[gv].disabled <==>
          (resource in base[gv].disabled && !on) || SetsResource(overrides, keys, gv, resource, false))
  }

  /** What the resource keys amount to, whatever their order. */
  ghost predicate ResourcesMerged(base: Configs, overrides: Overrides, keys: seq<string>, c: Configs) {
    && c.Keys == base.Keys
    && (forall gv :: gv in base ==> c[gv].enable == base[gv].enable)
    && (forall gv, r :: gv in base ==> ResourceMergedAt(base, overrides, keys, c, gv, r))
  }

  lemma SetsVersionSnoc(overrides: Overrides, keys: seq<string>, key: string, gv: GroupVersion, on: bool)
    ensures SetsVersion(overrides, keys + [key], gv, on) <==>
              SetsVersion(overrides, keys, gv, on)
              || (IsVersionKey(key) && VersionOf(key) == Some(gv) && Value(overrides, key) == Some(on))
  {
    hide VersionOf, IsVersionKey, Value;
    assert forall k :: k in keys + [key] <==> k in keys || k == key;
    assert key in keys + [key];
  }

  lemma SetsResourceSnoc(overrides: Overrides, keys: seq<string>, key: string, gv: GroupVersion, r: string, on: bool)
    ensures SetsResource(overrides, keys + [key], gv, r, on) <==>
              SetsResource(overrides, keys, gv, r, on)
              || (IsResourceKey(key) && VersionOf(key) == Some(gv) && ResourceOf(key) == r
                  && Value(overrides, key) == Some(on))
  {
    hide VersionOf, Value;
    assert forall k :: k in keys + [key] <==> k in keys || k == key;
    assert key in keys + [key];
  }

  /** With consistent overrides, the version pass fails just when some key is bad, and otherwise gives the closed form. */
  lemma {:induction false} VersionPassMeans(base: Configs, overrides: Overrides, registered: seq<GroupVersion>,
                                            order: seq<string>)
    requires Consistent(overrides) && forall k :: k in order ==> k in overrides
    ensures VersionPass(base, overrides, registered, order).Some? <==>
              forall k :: k in order && IsVersionKey(k) ==> KeyOk(overrides, registered, k)
    ensures VersionPass(base, overrides, registered, order).Some? ==>
              VersionsMerged(base, overrides, order, VersionPass(base, overrides, registered, order).value)
  {
    hide VersionOf, IsVersionKey, Value, SetsVersion, Consistent, VersionMergedAt;
    if order == [] {
      forall gv ensures VersionMergedAt(base, overrides, order, base, gv) {
        NoKeySetsVersion(base, overrides, gv);
      }
    } else {
      var front, key := order[..|order| - 1], order[|order| - 1];
      assert order == front + [key];
      assert key in order;
      assert forall k :: k in order <==> k in front || k == key;
      VersionPassMeans(base, overrides, registered, front);
      if VersionPass(base, overrides, registered, order).Some? {
        var c := VersionPass(base, overrides, registered, front).value;
        forall gv
          ensures VersionMergedAt(base, overrides, order, VersionPass(base, overrides, registered, order).value, gv)
        {
          if IsVersionKey(key) {
            VersionKeyAt(base, overrides, front, c, key, gv);
          } else {
            OtherKeyAt(base, overrides, front, c, key, gv);
          }
        }
      }
    }
  }

  lemma NoKeySetsVersion(base: Configs, overrides: Overrides, gv: GroupVersion)
    ensures VersionMergedAt(base, overrides, [], base, gv)
  {
  }

  lemma VersionKeyAt(base: Configs, overrides: Overrides, keys: seq<string>, c: Configs, key: string, gv: GroupVersion)
    requires Consistent(overrides) && key in overrides && forall k :: k in keys ==> k in overrides
    requires IsVersionKey(key) && VersionOf(key).Some? && Value(overrides, key).Some?
    requires VersionMergedAt(base, overrides, keys, c, gv)
    ensures VersionMergedAt(base, overrides, keys + [key],
                            SetVersion(c, VersionOf(key).value, Value(overrides, key).value), gv)
  {
    hide VersionOf, IsVersionKey, Value, SetsVersion, Consistent;
    SetsVersionSnoc(overrides, keys, key, gv, true);
    SetsVersionSnoc(overrides, keys, key, gv, false);
    if VersionOf(key) == Some(gv) && Value(overrides, key) == Some(false) {
      OffIsNotOn(overrides, keys, key, gv);
    }
  }

  lemma OffIsNotOn(overrides: Overrides, keys: seq<string>, key: string, gv: GroupVersion)
    requires Consistent(overrides) && key in overrides && forall k :: k in keys ==> k in overrides
    requires IsVersionKey(key) && VersionOf(key) == Some(gv) && Value(overrides, key) == Some(false)
    ensures !SetsVersion(overrides, keys, gv, true)
  {
    hide VersionOf, IsVersionKey, Value;
    forall k | k in keys && IsVersionKey(k) && VersionOf(k) == Some(gv)
      ensures Value(overrides, k) != Some(true)
    {
      assert SameTarget(k, key);
    }
  }

  lemma OtherKeyAt(base: Configs, overrides: Overrides, keys: seq<string>, c: Configs, key: string, gv: GroupVersion)
    requires !IsVersionKey(key) && VersionMergedAt(base, overrides, keys, c, gv)
    ensures VersionMergedAt(base, overrides, keys + [key], c, gv)
  {
    hide SetsVersion, IsVersionKey;
    SetsVersionSnoc(overrides, keys, key, gv, true);
    SetsVersionSnoc(overrides, keys, key, gv, false);
  }

  /** With consistent overrides, the resource pass fails just when a key is bad or its version is off; otherwise it
      gives the closed form. */
  lemma {:induction false} ResourcePassMeans(base: Configs, overrides: Overrides, registered: seq<GroupVersion>,
                                             order: seq<string>)
    requires Consistent(overrides) && forall k :: k in order ==> k in overrides
    ensures ResourcePass(base, overrides, registered, order).Some? <==>
              forall k :: k in order && IsResourceKey(k) ==>
                KeyOk(overrides, registered, k) && AnyResourcesForVersionEnabled(base, VersionOf(k).value)
    ensures ResourcePass(base, overrides, registered, order).Some? ==>
              ResourcesMerged(base, overrides, order, ResourcePass(base, overrides, registered, order).value)
  {
    hide VersionOf, Value, SetsResource, Consistent, ResourceMergedAt;
    if order == [] {
      forall gv, r | gv in base ensures ResourceMergedAt(base, overrides, order, base, gv, r) {
        NoKeySetsResource(base, overrides, gv, r);
      }
    } else {
      var front, key := order[..|order| - 1], order[|order| - 1];
      assert order == front + [key];
      assert key in order;
      assert forall k :: k in order <==> k in front || k == key;
      ResourcePassMeans(base, overrides, registered, front);
      if ResourcePass(base, overrides, registered, order).Some? {
        var c := ResourcePass(base, overrides, registered, front).value;
        forall gv, r | gv in base
          ensures ResourceMergedAt(base, overrides, order, ResourcePass(base, overrides, registered, order).value, gv, r)
        {
          if IsResourceKey(key) {
            ResourceKeyAt(base, overrides, front, c, key, gv, r);
          } else {
            OtherResourceKeyAt(base, overrides, front, c, key, gv, r);
          }
        }
      }
    }
  }

  lemma NoKeySetsResource(base: Configs, overrides: Overrides, gv: GroupVersion, r: string)
    requires gv in base
    ensures ResourceMergedAt(base, overrides, [], base, gv, r)
  {
  }

  lemma ResourceKeyAt(base: Configs, overrides: Overrides, keys: seq<string>, c: Configs, key: string,
                      gv: GroupVersion, r: string)
    requires Consistent(overrides) && key in overrides && forall k :: k in keys ==> k in overrides
    requires IsResourceKey(key) && VersionOf(key).Some? && Value(overrides, key).Some?
    requires gv in base && gv in c && ResourceMergedAt(base, overrides, keys, c, gv, r)
    ensures ResourceMergedAt(base, overrides, keys + [key],
                             SetResource(c, VersionOf(key).value, ResourceOf(key), Value(overrides, key).value), gv, r)
  {
    hide VersionOf, Value, SetsResource, Consistent;
    SetsResourceSnoc(overrides, keys, key, gv, r, true);
    SetsResourceSnoc(overrides, keys, key, gv, r, false);
    if VersionOf(key) == Some(gv) && ResourceOf(key) == r {
      NoOtherAnswer(overrides, keys, key, gv, r);
    }
  }

  lemma NoOtherAnswer(overrides: Overrides, keys: seq<string>, key: string, gv: GroupVersion, r: string)
    requires Consistent(overrides) && key in overrides && forall k :: k in keys ==> k in overrides
    requires IsResourceKey(key) && VersionOf(key) == Some(gv) && ResourceOf(key) == r && Value(overrides, key).Some?
    ensures !SetsResource(overrides, keys, gv, r, !Value(overrides, key).value)
  {
    hide VersionOf, Value;
    forall k | k in keys && IsResourceKey(k) && VersionOf(k) == Some(gv) && ResourceOf(k) == r
      ensures Value(overrides, k) != Some(!Value(overrides, key).value)
    {
      assert SameTarget(k, key) && SameTarget(key, k);
    }
  }

  lemma OtherResourceKeyAt(base: Configs, overrides: Overrides, keys: seq<string>, c: Configs, key: string,
                           gv: GroupVersion, r: string)
    requires !IsResourceKey(key) && gv in base && gv in c && ResourceMergedAt(base, overrides, keys, c, gv, r)
    ensures ResourceMergedAt(base, overrides, keys + [key], c, gv, r)
  {
    hide SetsResource;
    SetsResourceSnoc(overrides, keys, key, gv, r, true);
    SetsResourceSnoc(overrides, keys, key, gv, r, false);
  }

  lemma SameKeysSetTheSame(overrides: Overrides, a: seq<string>, b: seq<string>)
    requires forall k :: k in a <==> k in b
    ensures forall gv, on :: SetsVersion(overrides, a, gv, on) == SetsVersion(overrides, b, gv, on)
    ensures forall gv, r, on :: SetsResource(overrides, a, gv, r, on) == SetsResource(overrides, b, gv, r, on)
  {
    hide VersionOf, IsVersionKey, Value;
  }

  lemma OneVersionMerge(base: Configs, overrides: Overrides, a: seq<string>, b: seq<string>, c: Configs, d: Configs)
    requires forall k :: k in a <==> k in b
    requires VersionsMerged(base, overrides, a, c) && VersionsMerged(base, overrides, b, d)
    ensures c == d
  {
    hide SetsVersion, SetsResource;
    SameKeysSetTheSame(overrides, a, b);
    forall gv ensures gv in c <==> gv in d ensures gv in c ==> c[gv] == d[gv] {
      assert VersionMergedAt(base, overrides, a, c, gv) && VersionMergedAt(base, overrides, b, d, gv);
    }
  }

  lemma OneResourceMerge(base: Configs, overrides: Overrides, a: seq<string>, b: seq<string>, c: Configs, d: Configs)
    requires forall k :: k in a <==> k in b
    requires ResourcesMerged(base, overrides, a, c) && ResourcesMerged(base, overrides, b, d)
    ensures c == d
  {
    hide SetsVersion, SetsResource;
    SameKeysSetTheSame(overrides, a, b);
    forall gv | gv in c ensures c[gv] == d[gv] {
      forall r
        ensures r in c[gv].enabled <==> r in d[gv].enabled
        ensures r in c[gv].disabled <==> r in d[gv].disabled
      {
        assert ResourceMergedAt(base, overrides, a, c, gv, r) && ResourceMergedAt(base, overrides, b, d, gv, r);
      }
      assert c[gv].enabled == d[gv].enabled && c[gv].disabled == d[gv].disabled;
    }
  }

  /** With consistent overrides, neither success nor the result depends on the order of iteration. */
  lemma OrderDoesNotMatter(base: Configs, overrides: Overrides, registered: seq<GroupVersion>,
                           first: seq<string>, second: seq<string>, first': seq<string>, second': seq<string>)
    requires Consistent(overrides)
    requires IsOrder(overrides, first) && IsOrder(overrides, second)
    requires IsOrder(overrides, first') && IsOrder(overrides, second')
    ensures Merged(base, overrides, registered, first, second) == Merged(base, overrides, registered, first', second')
  {
    hide VersionOf, IsVersionKey, Value, KeyOk, Consistent, VersionPass, ResourcePass, VersionsMerged, ResourcesMerged;
    var start := AfterAll(base, overrides, registered);
    VersionPassMeans(start, overrides, registered, first);
    VersionPassMeans(start, overrides, registered, first');
    var c, c' := VersionPass(start, overrides, registered, first), VersionPass(start, overrides, registered, first');
    if c.Some? && c'.Some? {
      OneVersionMerge(start, overrides, first, first', c.value, c'.value);
      ResourcePassMeans(c.value, overrides, registered, second);
      ResourcePassMeans(c.value, overrides, registered, second');
      var d, d' := ResourcePass(c.value, overrides, registered, second), ResourcePass(c.value, overrides, registered, second');
      if d.Some? && d'.Some? {
        OneResourceMerge(c.value, overrides, second, second', d.value, d'.value);
      }
    }
  }

  function MoveToEnd(order: seq<string>, i: nat): seq<string>
    requires i < |order|
  {
    order[..i] + order[i + 1..] + [order[i]]
  }

  lemma MoveToEndIsOrder(overrides: Overrides, order: seq<string>, i: nat)
    requires i < |order| && IsOrder(overrides, order)
    ensures IsOrder(overrides, MoveToEnd(order, i))
  {
    var moved := MoveToEnd(order, i);
    forall k ensures k in moved <==> k in order {
      if k in order {
        var n :| 0 <= n < |order| && order[n] == k;
        assert moved[if n < i then n else if n == i then |order| - 1 else n - 1] == k;
      }
    }
  }

  lemma {:induction false} ResourcePassKeepsVersions(base: Configs, overrides: Overrides, registered: seq<GroupVersion>,
                                                     order: seq<string>, gv: GroupVersion)
    requires ResourcePass(base, overrides, registered, order).Some? && gv in base
    ensures gv in ResourcePass(base, overrides, registered, order).value
    ensures ResourcePass(base, overrides, registered, order).value[gv].enable == base[gv].enable
  {
    hide VersionOf, Value, KeyOk;
    if order != [] {
      ResourcePassKeepsVersions(base, overrides, registered, order[..|order| - 1], gv);
    }
  }

  lemma LastVersionKeyWins(base: Configs, overrides: Overrides, registered: seq<GroupVersion>,
                           first: seq<string>, second: seq<string>)
    requires first != [] && IsVersionKey(first[|first| - 1]) && VersionOf(first[|first| - 1]).Some?
    requires Merged(base, overrides, registered, first, second).Some?
    ensures
      var key, c := first[|first| - 1], Merged(base, overrides, registered, first, second).value;
      Value(overrides, key).Some? && VersionOf(key).value in c && c[VersionOf(key).value].enable == Value(overrides, key).value
  {
    hide VersionOf, IsVersionKey, Value, ResourcePass;
    var c := VersionPass(AfterAll(base, overrides, registered), overrides, registered, first).value;
    ResourcePassKeepsVersions(c, overrides, registered, second, VersionOf(first[|first| - 1]).value);
  }

  lemma LastResourceKeyWins(base: Configs, overrides: Overrides, registered: seq<GroupVersion>,
                            first: seq<string>, second: seq<string>)
    requires second != [] && IsResourceKey(second[|second| - 1]) && VersionOf(second[|second| - 1]).Some?
    requires Merged(base, overrides, registered, first, second).Some?
    ensures
      var key, c := second[|second| - 1], Merged(base, overrides, registered, first, second).value;
      && Value(overrides, key).Some? && VersionOf(key).value in c
      && (ResourceOf(key) in c[VersionOf(key).value].disabled <==> !Value(overrides, key).value)
  {
    hide VersionOf, Value, VersionPass;
  }

  /** When two keys disagree, any order that succeeds has another that ends differently. */
  lemma ConflictsMakeOrderMatter(base: Configs, overrides: Overrides, registered: seq<GroupVersion>,
                                 first: seq<string>, second: seq<string>)
    returns (first': seq<string>, second': seq<string>)
    requires IsOrder(overrides, first) && IsOrder(overrides, second)
    requires Merged(base, overrides, registered, first, second).Some? && !Consistent(overrides)
    ensures IsOrder(overrides, first') && IsOrder(overrides, second')
    ensures Merged(base, overrides, registered, first', second') != Merged(base, overrides, registered, first, second)
  {
    hide VersionOf, IsVersionKey, Value, Merged;
    var k, j :| k in overrides && j in overrides && SameTarget(k, j)
                && Value(overrides, k) == Some(true) && Value(overrides, j) == Some(false);
    var gv, c := VersionOf(k).value, Merged(base, overrides, registered, first, second).value;
    first', second' := first, second;
    if IsVersionKey(k) && IsVersionKey(j) {
      var last := if gv in c && c[gv].enable then j else k;
      var i :| 0 <= i < |first| && first[i] == last;
      MoveToEndIsOrder(overrides, first, i);
      first' := MoveToEnd(first, i);
      if Merged(base, overrides, registered, first', second).Some? {
        LastVersionKeyWins(base, overrides, registered, first', second);
      }
    } else {
      var last := if gv in c && ResourceOf(k) in c[gv].disabled then k else j;
      var i :| 0 <= i < |second| && second[i] == last;
      MoveToEndIsOrder(overrides, second, i);
      second' := MoveToEnd(second, i);
      if Merged(base, overrides, registered, first, second').Some? {
        LastResourceKeyWins(base, overrides, registered, first, second');
      }
    }
  }

  // ---- What ends up enabled ----

  ghost predicate VersionOverridden(overrides: Overrides, gv: GroupVersion, on: bool) {
    exists k :: k in overrides && IsVersionKey(k) && VersionOf(k) == Some(gv) && Value(overrides, k) == Some(on)
  }

  ghost predicate ResourceOverridden(overrides: Overrides, gv: GroupVersion, resource: string, on: bool) {
    exists k :: k in overrides && IsResourceKey(k) && VersionOf(k) == Some(gv) && ResourceOf(k) == resource
                && Value(overrides, k) == Some(on)
  }

  /** A version override beats "api/all", which beats the default. */
  ghost predicate VersionOn(base: Configs, overrides: Overrides, registered: seq<GroupVersion>, gv: GroupVersion) {
    if VersionOverridden(overrides, gv, true) then true
    else if VersionOverridden(overrides, gv, false) then false
    else if DisablesAll(overrides) && gv in registered then false
    else gv in base && base[gv].enable
  }

  /** Inside an enabled version a resource override beats the default; without one, a resource is off when it is
      listed as disabled, or when other resources are singled out as enabled. */
  ghost predicate ResourceOn(base: Configs, overrides: Overrides, gv: GroupVersion, resource: string) {
    if ResourceOverridden(overrides, gv, resource, false) then false
    else if ResourceOverridden(overrides, gv, resource, true) then true
    else if resource in Get(base, gv).disabled then false
    else if resource in Get(base, gv).enabled then true
    else Get(base, gv).enabled == {} && forall r :: !ResourceOverridden(overrides, gv, r, true)
  }

  /** Every version key and resource key is readable and registered, and resources are set only in enabled versions. */
  ghost predicate Acceptable(base: Configs, overrides: Overrides, registered: seq<GroupVersion>) {
    forall k :: k in overrides ==>
      && (IsVersionKey(k) ==> KeyOk(overrides, registered, k))
      && (IsResourceKey(k) ==>
            KeyOk(overrides, registered, k) && VersionOn(base, overrides, registered, VersionOf(k).value))
  }

  lemma OverriddenByOrder(overrides: Overrides, order: seq<string>)
    requires IsOrder(overrides, order)
    ensures forall gv, on :: SetsVersion(overrides, order, gv, on) == VersionOverridden(overrides, gv, on)
    ensures forall gv, r, on :: SetsResource(overrides, order, gv, r, on) == ResourceOverridden(overrides, gv, r, on)
  {
    hide VersionOf, IsVersionKey, Value;
  }

  lemma VersionOnMeans(base: Configs, overrides: Overrides, registered: seq<GroupVersion>, order: seq<string>,
                       c: Configs, gv: GroupVersion)
    requires IsOrder(overrides, order) && VersionsMerged(AfterAll(base, overrides, registered), overrides, order, c)
    ensures AnyResourcesForVersionEnabled(c, gv) <==> VersionOn(base, overrides, registered, gv)
    ensures gv in c ==> c[gv].enabled == Get(base, gv).enabled && c[gv].disabled == Get(base, gv).disabled
  {
    hide SetsVersion, VersionOverridden, SetsResource, ResourceOverridden;
    OverriddenByOrder(overrides, order);
    assert VersionMergedAt(AfterAll(base, overrides, registered), overrides, order, c, gv);
  }

  lemma ResourceOnMeans(base: Configs, overrides: Overrides, order: seq<string>, c: Configs, d: Configs,
                        gv: GroupVersion, resource: string)
    requires Consistent(overrides) && IsOrder(overrides, order) && ResourcesMerged(c, overrides, order, d)
    requires gv in c && c[gv].enable
    requires c[gv].enabled == Get(base, gv).enabled && c[gv].disabled == Get(base, gv).disabled
    ensures ResourceEnabled(d, gv, resource) <==> ResourceOn(base, overrides, gv, resource)
  {
    hide SetsVersion, VersionOverridden, SetsResource, ResourceOverridden, Consistent;
    OverriddenByOrder(overrides, order);
    assert ResourceMergedAt(c, overrides, order, d, gv, resource);
    NotBothWays(overrides, gv, resource);
    if d[gv].enabled == {} {
      forall r ensures r !in c[gv].enabled && !ResourceOverridden(overrides, gv, r, true) {
        assert ResourceMergedAt(c, overrides, order, d, gv, r);
      }
    } else {
      var r :| r in d[gv].enabled;
      assert ResourceMergedAt(c, overrides, order, d, gv, r);
    }
  }

  lemma NotBothWays(overrides: Overrides, gv: GroupVersion, resource: string)
    requires Consistent(overrides)
    ensures !(ResourceOverridden(overrides, gv, resource, true) && ResourceOverridden(overrides, gv, resource, false))
  {
    hide VersionOf, Value;
    if ResourceOverridden(overrides, gv, resource, true) {
      var k :| k in overrides && IsResourceKey(k) && VersionOf(k) == Some(gv) && ResourceOf(k) == resource
               && Value(overrides, k) == Some(true);
      forall j | j in overrides && IsResourceKey(j) && VersionOf(j) == Some(gv) && ResourceOf(j) == resource
        ensures Value(overrides, j) != Some(false)
      {
        assert SameTarget(k, j);
      }
    }
  }

  /** When the merge succeeds, and what it enables, in closed form. */
  lemma WhatTheMergeEnables(base: Configs, overrides: Overrides, registered: seq<GroupVersion>,
                            first: seq<string>, second: seq<string>, gv: GroupVersion, resource: string)
    requires Consistent(overrides) && IsOrder(overrides, first) && IsOrder(overrides, second)
    ensures Merged(base, overrides, registered, first, second).Some? <==> Acceptable(base, overrides, registered)
    ensures Acceptable(base, overrides, registered) ==>
              (ResourceEnabled(Merged(base, overrides, registered, first, second).value, gv, resource) <==>
               VersionOn(base, overrides, registered, gv) && ResourceOn(base, overrides, gv, resource))
  {
    hide VersionOf, IsVersionKey, Value, Consistent, VersionPass, ResourcePass, VersionsMerged,
      VersionOn, ResourceOn, AfterAll, AnyResourcesForVersionEnabled;
    var start := AfterAll(base, overrides, registered);
    VersionPassMeans(start, overrides, registered, first);
    if VersionPass(start, overrides, registered, first).Some? {
      var c := VersionPass(start, overrides, registered, first).value;
      ResourcePassMeans(c, overrides, registered, second);
      forall v
        ensures AnyResourcesForVersionEnabled(c, v) <==> VersionOn(base, overrides, registered, v)
      {
        VersionOnMeans(base, overrides, registered, first, c, v);
      }
      if ResourcePass(c, overrides, registered, second).Some? {
        EnabledAfterBoth(base, overrides, registered, first, second, c,
                         ResourcePass(c, overrides, registered, second).value, gv, resource);
      } else {
        var k :| k in second && IsResourceKey(k)
                 && !(KeyOk(overrides, registered, k) && AnyResourcesForVersionEnabled(c, VersionOf(k).value));
        assert k in overrides;
      }
    }
  }

  lemma EnabledAfterBoth(base: Configs, overrides: Overrides, registered: seq<GroupVersion>, first: seq<string>,
                         second: seq<string>, c: Configs, d: Configs, gv: GroupVersion, resource: string)
    requires Consistent(overrides) && IsOrder(overrides, first) && IsOrder(overrides, second)
    requires VersionsMerged(AfterAll(base, overrides, registered), overrides, first, c)
    requires ResourcesMerged(c, overrides, second, d)
    ensures ResourceEnabled(d, gv, resource) <==>
              VersionOn(base, overrides, registered, gv) && ResourceOn(base, overrides, gv, resource)
  {
    hide Consistent, IsOrder, VersionsMerged, VersionOn, ResourceOn, AfterAll, ResourceMergedAt;
    VersionOnMeans(base, overrides, registered, first, c, gv);
    if gv in c && c[gv].enable {
      ResourceOnMeans(base, overrides, second, c, d, gv, resource);
    }
  }

  // ---- When order matters ----

  /** The value that the last key for `gv` in this order has. */
  function LastValue(overrides: Overrides, order: seq<string>, gv: GroupVersion): Option<bool> {
    if order == [] then None
    else
      var key := order[|order| - 1];
      if IsVersionKey(key) && VersionOf(key) == Some(gv) && Value(overrides, key).Some? then Value(overrides, key)
      else LastValue(overrides, order[..|order| - 1], gv)
  }

  /** In any order, consistent or not: the version pass succeeds unless a key is bad, and the last key decides. */
  lemma {:induction false} VersionPassOutcome(base: Configs, overrides: Overrides, registered: seq<GroupVersion>,
                                              order: seq<string>, gv: GroupVersion)
    ensures VersionPass(base, overrides, registered, order).Some? <==>
              forall k :: k in order && IsVersionKey(k) ==> KeyOk(overrides, registered, k)
    ensures VersionPass(base, overrides, registered, order).Some? ==>
              (AnyResourcesForVersionEnabled(VersionPass(base, overrides, registered, order).value, gv) <==>
               match LastValue(overrides, order, gv)
               case Some(on) => on
               case None => AnyResourcesForVersionEnabled(base, gv))
  {
    hide VersionOf, IsVersionKey, Value;
    if order != [] {
      var front, key := order[..|order| - 1], order[|order| - 1];
      assert forall k :: k in order <==> k in front || k == key;
      VersionPassOutcome(base, overrides, registered, front, gv);
    }
  }

  /** In any order, the resource pass succeeds unless a key is bad or its version is off. */
  lemma {:induction false} ResourcePassOutcome(base: Configs, overrides: Overrides, registered: seq<GroupVersion>,
                                               order: seq<string>)
    ensures ResourcePass(base, overrides, registered, order).Some? <==>
              forall k :: k in order && IsResourceKey(k) ==>
                KeyOk(overrides, registered, k) && AnyResourcesForVersionEnabled(base, VersionOf(k).value)
    ensures ResourcePass(base, overrides, registered, order).Some? ==>
              forall gv :: AnyResourcesForVersionEnabled(ResourcePass(base, overrides, registered, order).value, gv)
                           == AnyResourcesForVersionEnabled(base, gv)
  {
    hide VersionOf, Value;
    if order != [] {
      var front, key := order[..|order| - 1], order[|order| - 1];
      assert forall k :: k in order <==> k in front || k == key;
      ResourcePassOutcome(base, overrides, registered, front);
    }
  }

  lemma {:induction false} LastValueMeans(overrides: Overrides, order: seq<string>, gv: GroupVersion)
    ensures match LastValue(overrides, order, gv)
            case Some(on) => SetsVersion(overrides, order, gv, on)
            case None => !SetsVersion(overrides, order, gv, true) && !SetsVersion(overrides, order, gv, false)
  {
    hide VersionOf, IsVersionKey, Value, SetsVersion;
    if order == [] {
      NothingSetsVersion(overrides, gv);
    } else {
      var front, key := order[..|order| - 1], order[|order| - 1];
      assert order == front + [key];
      LastValueMeans(overrides, front, gv);
      SetsVersionSnoc(overrides, front, key, gv, true);
      SetsVersionSnoc(overrides, front, key, gv, false);
    }
  }

  lemma NothingSetsVersion(overrides: Overrides, gv: GroupVersion)
    ensures !SetsVersion(overrides, [], gv, true) && !SetsVersion(overrides, [], gv, false)
  {
  }

  /** What is on after the version pass is on by the closed form; the reverse holds for a version whose last key is on
      whenever any is. */
  lemma EnabledMeansOn(base: Configs, overrides: Overrides, registered: seq<GroupVersion>, order: seq<string>,
                       gv: GroupVersion)
    requires IsOrder(overrides, order)
    requires VersionPass(AfterAll(base, overrides, registered), overrides, registered, order).Some?
    ensures var c := VersionPass(AfterAll(base, overrides, registered), overrides, registered, order).value;
            && (AnyResourcesForVersionEnabled(c, gv) ==> VersionOn(base, overrides, registered, gv))
            && (VersionOn(base, overrides, registered, gv)
                && (VersionOverridden(overrides, gv, true) ==> LastValue(overrides, order, gv) == Some(true)) ==>
                  AnyResourcesForVersionEnabled(c, gv))
  {
    hide VersionPass, LastValue, SetsVersion, VersionOverridden, SetsResource, ResourceOverridden;
    VersionPassOutcome(AfterAll(base, overrides, registered), overrides, registered, order, gv);
    LastValueMeans(overrides, order, gv);
    OverriddenByOrder(overrides, order);
  }

  /** Whatever the order, only acceptable overrides are merged. */
  lemma OnlyAcceptableMerges(base: Configs, overrides: Overrides, registered: seq<GroupVersion>,
                             first: seq<string>, second: seq<string>)
    requires IsOrder(overrides, first) && IsOrder(overrides, second)
    requires Merged(base, overrides, registered, first, second).Some?
    ensures Acceptable(base, overrides, registered)
  {
    hide VersionOf, IsVersionKey, Value, VersionPass, ResourcePass, VersionOn, AfterAll, AnyResourcesForVersionEnabled;
    var start := AfterAll(base, overrides, registered);
    var c := VersionPass(start, overrides, registered, first).value;
    VersionPassOutcome(start, overrides, registered, first, GroupVersion("", ""));
    ResourcePassOutcome(c, overrides, registered, second);
    forall k | k in overrides && IsResourceKey(k) ensures VersionOn(base, overrides, registered, VersionOf(k).value) {
      EnabledMeansOn(base, overrides, registered, first, VersionOf(k).value);
    }
  }

  lemma {:induction false} Enumerate(keys: set<string>) returns (order: seq<string>)
    ensures forall k :: k in order <==> k in keys
    ensures forall i, j :: 0 <= i < j < |order| ==> order[i] != order[j]
    decreases |keys|
  {
    if keys == {} {
      order := [];
    } else {
      var k :| k in keys;
      var rest := Enumerate(keys - {k});
      order := [k] + rest;
      forall j | 0 < j < |order| ensures order[0] != order[j] { assert order[j] in rest; }
    }
  }

  /** An order that visits the keys that switch something on last. */
  lemma OnsLast(overrides: Overrides) returns (order: seq<string>)
    ensures IsOrder(overrides, order)
    ensures forall gv :: VersionOverridden(overrides, gv, true) ==> LastValue(overrides, order, gv) == Some(true)
  {
    hide LastValue, Value, VersionOf, IsVersionKey;
    var on := set k | k in overrides && Value(overrides, k) == Some(true);
    var a := Enumerate(overrides.Keys - on);
    var b := Enumerate(on);
    order := a + b;
    assert IsOrder(overrides, order) by { OrderOfBoth(overrides, on, a, b); }
    forall gv | VersionOverridden(overrides, gv, true) ensures LastValue(overrides, order, gv) == Some(true) {
      LastValueAppend(overrides, a, b, gv);
      LastValueMeans(overrides, b, gv);
      assert SetsVersion(overrides, b, gv, true);
    }
  }

  lemma OrderOfBoth(overrides: Overrides, on: set<string>, a: seq<string>, b: seq<string>)
    requires on <= overrides.Keys
    requires (forall k :: k in a <==> k in overrides.Keys - on) && (forall k :: k in b <==> k in on)
    requires forall i, j :: 0 <= i < j < |a| ==> a[i] != a[j]
    requires forall i, j :: 0 <= i < j < |b| ==> b[i] != b[j]
    ensures IsOrder(overrides, a + b)
  {
    forall i, j | 0 <= i < j < |a + b| ensures (a + b)[i] != (a + b)[j] {
      if i < |a| <= j { assert a[i] in a && b[j - |a|] in b; }
    }
  }

  lemma {:induction false} LastValueAppend(overrides: Overrides, a: seq<string>, b: seq<string>, gv: GroupVersion)
    ensures LastValue(overrides, a + b, gv)
            == if LastValue(overrides, b, gv).Some? then LastValue(overrides, b, gv) else LastValue(overrides, a, gv)
  {
    hide VersionOf, IsVersionKey, Value;
    if b == [] {
      assert a + b == a;
    } else {
      LastValueAppend(overrides, a, b[..|b| - 1], gv);
      assert (a + b)[..|a + b| - 1] == a + b[..|b| - 1];
    }
  }

  /** Some order merges acceptable overrides. */
  lemma AcceptableMerges(base: Configs, overrides: Overrides, registered: seq<GroupVersion>)
    returns (first: seq<string>, second: seq<string>)
    requires Acceptable(base, overrides, registered)
    ensures IsOrder(overrides, first) && IsOrder(overrides, second)
    ensures Merged(base, overrides, registered, first, second).Some?
  {
    hide VersionOf, IsVersionKey, Value, VersionPass, ResourcePass, VersionOn, AfterAll, AnyResourcesForVersionEnabled,
      VersionOverridden;
    first := OnsLast(overrides);
    second := first;
    var start := AfterAll(base, overrides, registered);
    VersionPassOutcome(start, overrides, registered, first, GroupVersion("", ""));
    var c := VersionPass(start, overrides, registered, first).value;
    ResourcePassOutcome(c, overrides, registered, second);
    forall k | k in overrides && IsResourceKey(k) ensures AnyResourcesForVersionEnabled(c, VersionOf(k).value) {
      EnabledMeansOn(base, overrides, registered, first, VersionOf(k).value);
    }
  }

  /** Whether the merge fails, and what it yields, is the same in all orders of iteration. */
  ghost predicate SameInEveryOrder(base: Configs, overrides: Overrides, registered: seq<GroupVersion>) {
    forall first, second, first', second' ::
      IsOrder(overrides, first) && IsOrder(overrides, second) && IsOrder(overrides, first') && IsOrder(overrides, second') ==>
        Merged(base, overrides, registered, first, second) == Merged(base, overrides, registered, first', second')
  }

  /** For all overrides: order is immaterial if and only if no two keys disagree, or the overrides are refused anyway. */
  lemma OrderIsImmaterialIff(base: Configs, overrides: Overrides, registered: seq<GroupVersion>)
    ensures SameInEveryOrder(base, overrides, registered) <==>
              Consistent(overrides) || !Acceptable(base, overrides, registered)
  {
    hide Consistent, IsOrder, Merged, Acceptable;
    if Consistent(overrides) || !Acceptable(base, overrides, registered) {
      forall first, second, first', second' |
        IsOrder(overrides, first) && IsOrder(overrides, second) && IsOrder(overrides, first') && IsOrder(overrides, second')
        ensures Merged(base, overrides, registered, first, second) == Merged(base, overrides, registered, first', second')
      {
        if Consistent(overrides) {
          OrderDoesNotMatter(base, overrides, registered, first, second, first', second');
        } else {
          RefusedInEveryOrder(base, overrides, registered, first, second);
          RefusedInEveryOrder(base, overrides, registered, first', second');
        }
      }
    } else {
      var first, second := AcceptableMerges(base, overrides, registered);
      var first', second' := ConflictsMakeOrderMatter(base, overrides, registered, first, second);
    }
  }

  lemma RefusedInEveryOrder(base: Configs, overrides: Overrides, registered: seq<GroupVersion>,
                            first: seq<string>, second: seq<string>)
    requires IsOrder(overrides, first) && IsOrder(overrides, second) && !Acceptable(base, overrides, registered)
    ensures Merged(base, overrides, registered, first, second) == None
  {
    hide Acceptable, IsOrder, Merged;
    if Merged(base, overrides, registered, first, second).Some? {
      OnlyAcceptableMerges(base, overrides, registered, first, second);
    }
  }

  /** Distinct keys can name one version, so that overrides can disagree: "api/v1" and "/v1". */
  lemma LegacyKeyHasAnAlias()
    ensures SameTarget("api/v1", "/v1") && SameTarget("/v1", "api/v1")
    ensures IsVersionKey("api/v1") && IsVersionKey("/v1")
    ensures VersionOf("api/v1") == VersionOf("/v1") == Some(GroupVersion("", "v1"))
  {
    hide Split;
    TwoTokens("api", "v1");
    assert "api" + "/" + "v1" == "api/v1";
    TwoTokens("", "v1");
    assert "" + "/" + "v1" == "/v1";
    SplitFree("v1", '/');
  }

  /** Overrides that switch the legacy version on under one name and off under the other: the last one visited wins. */
  lemma AliasesMakeOrderMatter(base: Configs, registered: seq<GroupVersion>)
    requires GroupVersion("", "v1") in registered
    ensures var overrides: Overrides := map["api/v1" := "true", "/v1" := "false"];
            var gv, order, other := GroupVersion("", "v1"), ["api/v1", "/v1"], ["/v1", "api/v1"];
            var c, d := Merged(base, overrides, registered, order, order), Merged(base, overrides, registered, other, other);
            && IsOrder(overrides, order) && IsOrder(overrides, other) && c.Some? && d.Some?
            && gv in c.value && !c.value[gv].enable && gv in d.value && d.value[gv].enable
  {
    hide *;
    var overrides: Overrides := map["api/v1" := "true", "/v1" := "false"];
    LegacyKeyHasAnAlias();
    AliasValues(overrides);
    TwoKeysMerged(base, overrides, registered, "api/v1", "/v1", GroupVersion("", "v1"));
    TwoKeysMerged(base, overrides, registered, "/v1", "api/v1", GroupVersion("", "v1"));
  }

  lemma AliasValues(overrides: Overrides)
    requires overrides == map["api/v1" := "true", "/v1" := "false"]
    ensures Value(overrides, "api/v1") == Some(true) && Value(overrides, "/v1") == Some(false)
    ensures "api/v1" != "/v1" && overrides.Keys == {"api/v1", "/v1"}
  {
    assert "api/v1" != "/v1" by { assert |"api/v1"| != |"/v1"|; }
  }

  lemma TwoKeysMerged(base: Configs, overrides: Overrides, registered: seq<GroupVersion>, k: string, j: string,
                      gv: GroupVersion)
    requires k != j && overrides.Keys == {k, j} && SameTarget(k, j) && IsVersionKey(k) && IsVersionKey(j)
    requires VersionOf(j) == Some(gv) && gv in registered && Value(overrides, k).Some? && Value(overrides, j).Some?
    ensures IsOrder(overrides, [k, j]) && Merged(base, overrides, registered, [k, j], [k, j]).Some?
    ensures var c := Merged(base, overrides, registered, [k, j], [k, j]).value;
            gv in c && c[gv].enable == Value(overrides, j).value
  {
    hide VersionOf, IsVersionKey, IsResourceKey, Value, AfterAll, VersionPass, ResourcePass;
    TwoVersionKeys(AfterAll(base, overrides, registered), overrides, registered, k, j);
  }

  /** When two version keys are all there is, the second one decides. */
  lemma TwoVersionKeys(c: Configs, overrides: Overrides, registered: seq<GroupVersion>, k: string, j: string)
    requires IsVersionKey(k) && IsVersionKey(j) && VersionOf(k) == VersionOf(j)
    requires KeyOk(overrides, registered, k) && KeyOk(overrides, registered, j)
    ensures var d, gv := VersionPass(c, overrides, registered, [k, j]), VersionOf(j).value;
            && d.Some? && gv in d.value && d.value[gv].enable == Value(overrides, j).value
            && ResourcePass(d.value, overrides, registered, [k, j]) == d
  {
    hide VersionOf, Value;
    assert [k, j][..1] == [k] && [k][..0] == [];
    var d := VersionPass(c, overrides, registered, [k, j]);
    assert VersionPass(c, overrides, registered, [k]).Some?;
    assert ResourcePass(d.value, overrides, registered, []) == d;
    assert ResourcePass(d.value, overrides, registered, [k]) == d;
  }

  lemma TwoTokens(a: string, b: string)
    requires '/' !in a && '/' !in b
    ensures Split(a + "/" + b, "/") == [a, b]
  {
    SplitJoin([a, b], '/');
    assert Join([a, b], "/") == a + "/" + b;
  }

  lemma ThreeTokens(a: string, b: string, c: string)
    requires '/' !in a && '/' !in b && '/' !in c
    ensures Split(a + "/" + b + "/" + c, "/") == [a, b, c]
  {
    hide Split;
    SplitJoin([a, b, c], '/');
    assert [a, b, c][1..] == [b, c] && [b, c][1..] == [c];
    assert Join([b, c], "/") == b + "/" + c;
    assert a + "/" + (b + "/" + c) == a + "/" + b + "/" + c;
  }

  // ---- What keys and values say ----

  /** The version that a group and a version name; `api/v1` is the legacy version. */
  function Target(group: string, version: string): GroupVersion {
    if group == "api" && version == "v1" then GroupVersion("", "v1") else GroupVersion(group, version)
  }

  lemma TwoTokensName(group: string, version: string)
    requires '/' !in group && '/' !in version
    ensures ParseGroupVersion(if group + "/" + version == "api/v1" then "v1" else group + "/" + version)
            == Some(Target(group, version))
  {
    var s := group + "/" + version;
    TwoTokens(group, version);
    SplitFree("v1", '/');
    TwoTokens("api", "v1");
    assert "api" + "/" + "v1" == "api/v1";
    if s == "/" {
      assert |s| == |group| + 1 + |version|;
    }
  }

  /** A key of two tokens names a version, and one of three a resource of a version. */
  lemma KeysName(group: string, version: string, resource: string)
    requires '/' !in group && '/' !in version && '/' !in resource
    ensures var key := group + "/" + version;
            && (IsVersionKey(key) <==> !(group == "api" && version in {"all", "legacy"})) && !IsResourceKey(key)
            && VersionOf(key) == Some(Target(group, version))
    ensures var key := group + "/" + version + "/" + resource;
            && IsResourceKey(key) && !IsVersionKey(key) && ResourceOf(key) == resource
            && VersionOf(key) == Some(Target(group, version))
  {
    hide Split, ParseGroupVersion;
    TwoTokens(group, version);
    ThreeTokens(group, version, resource);
    TwoTokensName(group, version);
    TwoTokens("api", "all");
    TwoTokens("api", "legacy");
    assert "api" + "/" + "all" == "api/all" && "api" + "/" + "legacy" == "api/legacy";
  }

  const ON := {"", "1", "t", "T", "true", "TRUE", "True"}
  const OFF := {"0", "f", "F", "false", "FALSE", "False"}

  lemma FlagsMean(overrides: Overrides, key: string)
    requires key in overrides
    ensures Value(overrides, key) == if overrides[key] in ON then Some(true) else if overrides[key] in OFF then Some(false) else None
  {
  }

  lemma OnePass(c: Configs, overrides: Overrides, registered: seq<GroupVersion>, key: string)
    ensures VersionPass(c, overrides, registered, [key])
            == if !IsVersionKey(key) then Some(c) else if !KeyOk(overrides, registered, key) then None
               else Some(SetVersion(c, VersionOf(key).value, Value(overrides, key).value))
    ensures ResourcePass(c, overrides, registered, [key])
            == if !IsResourceKey(key) then Some(c) else if !KeyOk(overrides, registered, key) then None
               else if !AnyResourcesForVersionEnabled(c, VersionOf(key).value) then None
               else Some(SetResource(c, VersionOf(key).value, ResourceOf(key), Value(overrides, key).value))
  {
    hide IsVersionKey, VersionOf, Value;
    assert [key][..0] == [];
  }

  /** One override of a version: it is switched on or off, and nothing else is touched; another value or an unknown
      version is an error. */
  lemma OneVersionOverride(base: Configs, registered: seq<GroupVersion>, group: string, version: string, flag: string)
    requires '/' !in group && '/' !in version && !(group == "api" && version in {"all", "legacy"})
    ensures var key, gv := group + "/" + version, Target(group, version);
            Merged(base, map[key := flag], registered, [key], [key])
            == if gv !in registered || (flag !in ON && flag !in OFF) then None
               else Some(base[gv := (if gv in base then base[gv] else VersionConfig(true, {}, {})).(enable := flag in ON)])
  {
    hide Split, IsVersionKey, IsResourceKey, VersionOf, Value, ResourcePass, VersionPass, ON, OFF;
    var key, overrides := group + "/" + version, map[group + "/" + version := flag];
    KeysName(group, version, "");
    FlagsMean(overrides, key);
    TwoTokens(group, version);
    TwoTokens("api", "all");
    assert "api" + "/" + "all" == "api/all";
    NotAll(overrides, key, base, registered);
    OnePass(base, overrides, registered, key);
    OnOrOff(flag);
    if VersionPass(base, overrides, registered, [key]).Some? {
      OnePass(VersionPass(base, overrides, registered, [key]).value, overrides, registered, key);
    }
  }

  lemma OnOrOff(flag: string)
    ensures !(flag in ON && flag in OFF)
  {
  }

  lemma NotAll(overrides: Overrides, key: string, base: Configs, registered: seq<GroupVersion>)
    requires overrides.Keys == {key} && key != "api/all"
    ensures AfterAll(base, overrides, registered) == base
  {
  }

  /** One override of a resource: in a version that is enabled, it is listed as enabled, or as disabled. */
  lemma OneResourceOverride(base: Configs, registered: seq<GroupVersion>, group: string, version: string, resource: string,
                            flag: string)
    requires '/' !in group && '/' !in version && '/' !in resource
    ensures var key, gv := group + "/" + version + "/" + resource, Target(group, version);
            Merged(base, map[key := flag], registered, [key], [key])
            == if gv !in registered || gv !in base || !base[gv].enable || (flag !in ON && flag !in OFF) then None
               else if flag in ON
               then Some(base[gv := VersionConfig(true, base[gv].disabled - {resource}, base[gv].enabled + {resource})])
               else Some(base[gv := VersionConfig(true, base[gv].disabled + {resource}, base[gv].enabled)])
  {
    hide Split, IsVersionKey, IsResourceKey, VersionOf, Value, ResourceOf, ResourcePass, VersionPass, ON, OFF;
    var key, overrides := group + "/" + version + "/" + resource, map[group + "/" + version + "/" + resource := flag];
    KeysName(group, version, resource);
    FlagsMean(overrides, key);
    ThreeTokens(group, version, resource);
    TwoTokens("api", "all");
    assert "api" + "/" + "all" == "api/all";
    NotAll(overrides, key, base, registered);
    OnePass(base, overrides, registered, key);
    OnOrOff(flag);
  }

  /** `api/all=false` switches off every registered version that the configuration knows, and no other. */
  lemma AllOff(base: Configs, registered: seq<GroupVersion>, gv: GroupVersion)
    ensures var c := Merged(base, map["api/all" := "false"], registered, ["api/all"], ["api/all"]);
            && c.Some? && c.value.Keys == base.Keys
            && (gv in base ==> c.value[gv] == if gv in registered then base[gv].(enable := false) else base[gv])
  {
    hide Split, IsVersionKey, IsResourceKey, VersionOf, Value, VersionPass, ResourcePass;
    var overrides: Overrides := map["api/all" := "false"];
    KeysName("api", "all", "");
    assert "api" + "/" + "all" == "api/all";
    OnePass(AfterAll(base, overrides, registered), overrides, registered, "api/all");
  }
}
