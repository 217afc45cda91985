/**
 * buildFilters (internal/checker/checker.go:56-105): the server-side filters sent with
 * every DescribeInstances page request.
 */
module Filters {
  import opened Configuration
  import opened Aws

  const StateFilter: Filter := Filter("instance-state-name", ["running"])
  const TypeFilterName: string := "instance-type"
  const VpcFilterName: string := "vpc-id"
  const TagPrefix: string := "tag:"

  /** The non-empty instance types of the targets, in target order, duplicates kept. */
  function InstanceTypes(targets: seq<Target>): seq<string>
  {
    if targets == [] then []
    else
      var front := InstanceTypes(targets[..|targets| - 1]);
      var ty := targets[|targets| - 1].instanceType;
      if ty != "" then front + [ty] else front
  }

  /** Every tag key some target requires. */
  function TagKeys(targets: seq<Target>): set<string>
  {
    if targets == [] then {}
    else TagKeys(targets[..|targets| - 1]) + targets[|targets| - 1].tags.Keys
  }

  /** The values the targets require for tag key `k`, in target order. */
  function TagValues(targets: seq<Target>, k: string): seq<string>
  {
    if targets == [] then []
    else
      var t := targets[|targets| - 1];
      TagValues(targets[..|targets| - 1], k) + (if k in t.tags then [t.tags[k]] else [])
  }

  /** The tag-key to values map buildFilters collects. */
  function TagFilterMap(targets: seq<Target>): (m: map<string, seq<string>>)
    ensures forall k :: k in m <==> exists i | 0 <= i < |targets| :: k in targets[i].tags
    ensures forall k | k in m :: |m[k]| > 0 && m[k] == TagValues(targets, k)
  {
    TagKeysAll(targets);
    map k | k in TagKeys(targets) :: TagValues(targets, k)
  }

  /** The filters whose position is fixed: state, then type when some target sets one,
      then VPC when configured. */
  function FixedFilters(cfg: Config): seq<Filter>
  {
    var types := InstanceTypes(cfg.targets);
    [StateFilter]
      + (if |types| > 0 then [Filter(TypeFilterName, types)] else [])
      + (if cfg.vpcId != "" then [Filter(VpcFilterName, [cfg.vpcId])] else [])
  }

  /** fmt.Sprintf("tag:%s", key); TagKeyOf recovers the key from it. */
  function TagFilterName(key: string): (name: string)
    ensures IsTagFilterName(name) && TagKeyOf(name) == key
  {
    assert (TagPrefix + key)[..|TagPrefix|] == TagPrefix && (TagPrefix + key)[|TagPrefix|..] == key;
    TagPrefix + key
  }

  predicate IsTagFilterName(name: string)
  {
    |name| >= |TagPrefix| && name[..|TagPrefix|] == TagPrefix
  }

  function TagKeyOf(name: string): string
    requires IsTagFilterName(name)
  {
    name[|TagPrefix|..]
  }

  /** `fs` lists, in some order, exactly one filter "tag:k" per key k of `keys`,
      carrying m[k]. */
  predicate ListsTags(fs: seq<Filter>, m: map<string, seq<string>>, keys: set<string>)
    requires keys <= m.Keys
  {
    && |fs| == |keys|
    && (forall j | 0 <= j < |fs| ::
          IsTagFilterName(fs[j].name) && TagKeyOf(fs[j].name) in keys && fs[j].values == m[TagKeyOf(fs[j].name)])
    && (forall j, l | 0 <= j < l < |fs| :: fs[j].name != fs[l].name)
    && (forall k {:trigger TagFilterName(k)} | k in keys :: exists j | 0 <= j < |fs| :: fs[j].name == TagFilterName(k))
  }

  /** What buildFilters returns: the fixed filters, then one tag filter per required key
      in an unspecified order (Go's map iteration order). */
  predicate IsFilterListFor(cfg: Config, filters: seq<Filter>)
  {
    var fixed := FixedFilters(cfg);
    && |fixed| <= |filters|
    && filters[..|fixed|] == fixed
    && ListsTags(filters[|fixed|..], TagFilterMap(cfg.targets), TagKeys(cfg.targets))
  }

  /** The tag map after the targets `ts` and the keys `done` of target `t`. */
  function PartialTagMap(ts: seq<Target>, t: Target, done: set<string>): map<string, seq<string>>
    requires done <= t.tags.Keys
  {
    map k | k in TagKeys(ts) + done :: TagValues(ts, k) + (if k in done then [t.tags[k]] else [])
  }

  lemma PartialTagMapComplete(ts: seq<Target>, t: Target)
    ensures PartialTagMap(ts, t, t.tags.Keys) == TagFilterMap(ts + [t])
  {
    assert (ts + [t])[..|ts|] == ts;
  }

  lemma PartialTagMapStart(ts: seq<Target>, t: Target)
    ensures PartialTagMap(ts, t, {}) == TagFilterMap(ts)
  {
    var a, b := PartialTagMap(ts, t, {}), TagFilterMap(ts);
    assert a.Keys == b.Keys by { assert TagKeys(ts) + {} == TagKeys(ts); }
    forall k | k in a ensures a[k] == b[k] { }
  }

  /** A key no target requires has no values. */
  lemma {:induction false} TagValuesOutsideKeys(ts: seq<Target>, k: string)
    requires k !in TagKeys(ts)
    ensures TagValues(ts, k) == []
  {
    if ts != [] {
      TagValuesOutsideKeys(ts[..|ts| - 1], k);
    }
  }

  /** Appending the value of one more key of `t`, as the inner loop of buildFilters does. */
  lemma PartialTagMapStep(ts: seq<Target>, t: Target, done: set<string>, key: string)
    requires done <= t.tags.Keys && key in t.tags && key !in done
    ensures var m := PartialTagMap(ts, t, done);
            PartialTagMap(ts, t, done + {key}) == m[key := (if key in m then m[key] else []) + [t.tags[key]]]
  {
    var m := PartialTagMap(ts, t, done);
    var a := PartialTagMap(ts, t, done + {key});
    var b := m[key := (if key in m then m[key] else []) + [t.tags[key]]];
    if key !in TagKeys(ts) {
      TagValuesOutsideKeys(ts, key);
    }
    assert a.Keys == b.Keys;
    forall k | k in a ensures a[k] == b[k] { }
  }

  /** The instance types loop of buildFilters (lines 65-70). */
  method CollectInstanceTypes(targets: seq<Target>) returns (instanceTypes: seq<string>)
    ensures instanceTypes == InstanceTypes(targets)
  {
    instanceTypes := [];
    for i := 0 to |targets|
      invariant instanceTypes == InstanceTypes(targets[..i])
    {
      assert targets[..i + 1][..i] == targets[..i];
      if targets[i].instanceType != "" {
        instanceTypes := instanceTypes + [targets[i].instanceType];
      }
    }
    assert targets[..|targets|] == targets;
  }

  /** The tag collection loops of buildFilters (lines 87-96). */
  method CollectTagFilters(targets: seq<Target>) returns (tagFilters: map<string, seq<string>>)
    ensures tagFilters == TagFilterMap(targets)
  {
    tagFilters := map[];
    for i := 0 to |targets|
      invariant tagFilters == TagFilterMap(targets[..i])
    {
      var t := targets[i];
      var pending := t.tags.Keys;   // Go ranges over the map in an unspecified order
      ghost var done: set<string> := {};
      PartialTagMapStart(targets[..i], t);
      while pending != {}
        invariant pending !! done && pending + done == t.tags.Keys
        invariant tagFilters == PartialTagMap(targets[..i], t, done)
        decreases pending
      {
        var key :| key in pending;
        PartialTagMapStep(targets[..i], t, done, key);
        if key !in tagFilters {
          tagFilters := tagFilters[key := []];
        }
        tagFilters := tagFilters[key := tagFilters[key] + [t.tags[key]]];
        pending := pending - {key};
        done := done + {key};
      }
      PartialTagMapComplete(targets[..i], t);
      assert targets[..i + 1] == targets[..i] + [t];
    }
    assert targets[..|targets|] == targets;
  }

  /** Emitting the filter of one more key keeps the listing exact. */
  lemma ListsTagsAppend(fs: seq<Filter>, m: map<string, seq<string>>, keys: set<string>, key: string)
    requires keys <= m.Keys && key in m && key !in keys
    requires ListsTags(fs, m, keys)
    ensures ListsTags(fs + [Filter(TagFilterName(key), m[key])], m, keys + {key})
  {
    var f := Filter(TagFilterName(key), m[key]);
    var fs' := fs + [f];
    forall j | 0 <= j < |fs'|
      ensures IsTagFilterName(fs'[j].name) && TagKeyOf(fs'[j].name) in keys + {key}
              && fs'[j].values == m[TagKeyOf(fs'[j].name)]
    {
      if j < |fs| { assert fs'[j] == fs[j]; }
    }
    forall j, l | 0 <= j < l < |fs'| ensures fs'[j].name != fs'[l].name
    {
      if l < |fs| {
        assert fs'[j] == fs[j] && fs'[l] == fs[l];
      } else {
        assert fs'[j] == fs[j];
        assert TagKeyOf(fs[j].name) in keys;
      }
    }
    forall k | k in keys + {key} ensures exists j | 0 <= j < |fs'| :: fs'[j].name == TagFilterName(k)
    {
      if k == key {
        assert fs'[|fs|].name == TagFilterName(k);
      } else {
        var j :| 0 <= j < |fs| && fs[j].name == TagFilterName(k);
        assert fs'[j] == fs[j];
      }
    }
  }

  /** The emitting loop of buildFilters (lines 97-102), in Go's map iteration order. */
  method EmitTagFilters(tagFilters: map<string, seq<string>>) returns (fs: seq<Filter>)
    ensures ListsTags(fs, tagFilters, tagFilters.Keys)
  {
    fs := [];
    var remaining := tagFilters.Keys;
    ghost var emitted: set<string> := {};
    while remaining != {}
      invariant remaining !! emitted && remaining + emitted == tagFilters.Keys
      invariant ListsTags(fs, tagFilters, emitted)
      decreases remaining
    {
      var key :| key in remaining;
      ListsTagsAppend(fs, tagFilters, emitted, key);
      fs := fs + [Filter(TagFilterName(key), tagFilters[key])];
      remaining := remaining - {key};
      emitted := emitted + {key};
    }
  }

  method BuildFilters(cfg: Config) returns (filters: seq<Filter>)
    ensures IsFilterListFor(cfg, filters)
  {
    filters := [StateFilter];
    var instanceTypes := CollectInstanceTypes(cfg.targets);
    if |instanceTypes| > 0 {
      filters := filters + [Filter(TypeFilterName, instanceTypes)];
    }
    if cfg.vpcId != "" {
      filters := filters + [Filter(VpcFilterName, [cfg.vpcId])];
    }
    assert filters == FixedFilters(cfg);
    var tagFilters := CollectTagFilters(cfg.targets);
    assert tagFilters.Keys == TagKeys(cfg.targets);
    var tagList := EmitTagFilters(tagFilters);
    ghost var fixed := filters;
    filters := filters + tagList;
    assert filters[..|fixed|] == fixed && filters[|fixed|..] == tagList;
  }

  /** The filter list always begins with instance-state-name = ["running"]. */
  lemma StateFilterFirst(cfg: Config, filters: seq<Filter>)
    requires IsFilterListFor(cfg, filters)
    ensures |filters| >= 1 && filters[0] == StateFilter
  {
    assert filters[0] == filters[..|FixedFilters(cfg)|][0];
  }

  /** Where each filter can stand: fixed filters only in the fixed part, tag filters,
      one per required key, only after it. */
  lemma FilterNames(cfg: Config, filters: seq<Filter>, j: nat)
    requires IsFilterListFor(cfg, filters) && j < |filters|
    ensures var fixed := FixedFilters(cfg);
            if j < |fixed| then
              filters[j] == fixed[j] && !IsTagFilterName(filters[j].name)
            else
              && filters[j] == filters[|fixed|..][j - |fixed|]
              && IsTagFilterName(filters[j].name)
              && TagKeyOf(filters[j].name) in TagKeys(cfg.targets)
              && filters[j].values == TagValues(cfg.targets, TagKeyOf(filters[j].name))
  {
    var fixed := FixedFilters(cfg);
    FixedNamesDistinct();
    if j < |fixed| {
      assert filters[j] == filters[..|fixed|][j];
    } else {
      assert filters[j] == filters[|fixed|..][j - |fixed|];
    }
  }

  /** The fixed filter names differ from each other and from every tag filter name. */
  lemma FixedNamesDistinct()
    ensures StateFilter.name != TypeFilterName && StateFilter.name != VpcFilterName && TypeFilterName != VpcFilterName
    ensures !IsTagFilterName(StateFilter.name) && !IsTagFilterName(TypeFilterName) && !IsTagFilterName(VpcFilterName)
  {
    assert StateFilter.name[0] == 'i' && StateFilter.name[1] == 'n' && StateFilter.name[9] == 's';
    assert TypeFilterName[0] == 'i' && TypeFilterName[1] == 'n' && TypeFilterName[9] == 't';
    assert VpcFilterName[0] == 'v' && TagPrefix[0] == 't';
  }

  /** A vpc-id filter is present iff a VPC is configured, and it carries exactly that VPC. */
  lemma VpcFilterIff(cfg: Config, filters: seq<Filter>)
    requires IsFilterListFor(cfg, filters)
    ensures (exists j | 0 <= j < |filters| :: filters[j].name == VpcFilterName) <==> cfg.vpcId != ""
    ensures forall j | 0 <= j < |filters| && filters[j].name == VpcFilterName :: filters[j].values == [cfg.vpcId]
  {
    FixedNamesDistinct();
    var fixed := FixedFilters(cfg);
    forall j | 0 <= j < |filters| && filters[j].name == VpcFilterName
      ensures cfg.vpcId != "" && filters[j].values == [cfg.vpcId]
    {
      FilterNames(cfg, filters, j);
    }
    if cfg.vpcId != "" {
      FilterNames(cfg, filters, |fixed| - 1);
      assert filters[|fixed| - 1].name == VpcFilterName;
    }
  }

  /** InstanceTypes distributes over concatenation of target lists ... */
  lemma {:induction false} InstanceTypesAppend(a: seq<Target>, b: seq<Target>)
    ensures InstanceTypes(a + b) == InstanceTypes(a) + InstanceTypes(b)
    decreases |b|
  {
    if b == [] {
      assert a + b == a;
    } else {
      var b' := b[..|b| - 1];
      assert (a + b)[..|a + b| - 1] == a + b';
      InstanceTypesAppend(a, b');
    }
  }

  /** ... and keeps the type of a single target exactly when it is set: together, the
      values are the non-empty types in target order, duplicates kept. */
  lemma InstanceTypesSingle(t: Target)
    ensures InstanceTypes([t]) == if t.instanceType != "" then [t.instanceType] else []
  {
    assert [t][..0] == [];
  }

  /** Some target sets a type iff InstanceTypes is non-empty. */
  lemma {:induction false} InstanceTypesNonEmpty(targets: seq<Target>)
    ensures |InstanceTypes(targets)| > 0 <==> exists i | 0 <= i < |targets| :: targets[i].instanceType != ""
  {
    if targets != [] {
      var front := targets[..|targets| - 1];
      InstanceTypesNonEmpty(front);
      if exists i | 0 <= i < |front| :: front[i].instanceType != "" {
        var i :| 0 <= i < |front| && front[i].instanceType != "";
        assert targets[i] == front[i];
      }
      forall i | 0 <= i < |front| ensures front[i] == targets[i] { }
    }
  }

  /** An instance-type filter is present iff some target sets a type, and it carries InstanceTypes. */
  lemma TypeFilterIff(cfg: Config, filters: seq<Filter>)
    requires IsFilterListFor(cfg, filters)
    ensures (exists j | 0 <= j < |filters| :: filters[j].name == TypeFilterName)
            <==> exists i | 0 <= i < |cfg.targets| :: cfg.targets[i].instanceType != ""
    ensures forall j | 0 <= j < |filters| && filters[j].name == TypeFilterName ::
              filters[j].values == InstanceTypes(cfg.targets)
  {
    FixedNamesDistinct();
    InstanceTypesNonEmpty(cfg.targets);
    forall j | 0 <= j < |filters| && filters[j].name == TypeFilterName
      ensures |InstanceTypes(cfg.targets)| > 0 && filters[j].values == InstanceTypes(cfg.targets)
    {
      FilterNames(cfg, filters, j);
    }
    if |InstanceTypes(cfg.targets)| > 0 {
      FilterNames(cfg, filters, 1);
      assert filters[1].name == TypeFilterName;
    }
  }

  /** k is required by some target iff it is in TagKeys. */
  /** TagKeysIff for every key at once, and a collected key has at least one value. */
  lemma TagKeysAll(targets: seq<Target>)
    ensures forall k :: k in TagKeys(targets) <==> exists i | 0 <= i < |targets| :: k in targets[i].tags
    ensures forall k | k in TagKeys(targets) :: |TagValues(targets, k)| > 0
  {
    forall k ensures k in TagKeys(targets) <==> exists i | 0 <= i < |targets| :: k in targets[i].tags {
      TagKeysIff(targets, k);
    }
    forall k | k in TagKeys(targets) ensures |TagValues(targets, k)| > 0 {
      TagKeysIff(targets, k);
      var i :| 0 <= i < |targets| && k in targets[i].tags;
      TagValuesHas(targets, k, i);
    }
  }

  /** A target requiring `k` contributes a value for it. */
  lemma {:induction false} TagValuesHas(targets: seq<Target>, k: string, i: nat)
    requires i < |targets| && k in targets[i].tags
    ensures |TagValues(targets, k)| > 0
    decreases |targets|
  {
    var front := targets[..|targets| - 1];
    if i < |front| {
      assert front[i] == targets[i];
      TagValuesHas(front, k, i);
    }
  }

  lemma {:induction false} TagKeysIff(targets: seq<Target>, k: string)
    ensures k in TagKeys(targets) <==> exists i | 0 <= i < |targets| :: k in targets[i].tags
  {
    if targets != [] {
      var front := targets[..|targets| - 1];
      TagKeysIff(front, k);
      forall i | 0 <= i < |front| ensures front[i] == targets[i] { }
    }
  }

  /** TagValues distributes over concatenation of target lists ... */
  lemma {:induction false} TagValuesAppend(a: seq<Target>, b: seq<Target>, k: string)
    ensures TagValues(a + b, k) == TagValues(a, k) + TagValues(b, k)
    decreases |b|
  {
    if b == [] {
      assert a + b == a;
    } else {
      var b' := b[..|b| - 1];
      assert (a + b)[..|a + b| - 1] == a + b';
      TagValuesAppend(a, b', k);
    }
  }

  /** ... and a single target contributes its required value for k, if any: the values are
      what each target requires for k, in target order. */
  lemma TagValuesSingle(t: Target, k: string)
    ensures TagValues([t], k) == if k in t.tags then [t.tags[k]] else []
  {
    assert [t][..0] == [];
  }

  /** Exactly one "tag:k" filter per key required by some target, carrying the values
      the targets require for k. */
  lemma TagFilterPerKey(cfg: Config, filters: seq<Filter>, k: string)
    requires IsFilterListFor(cfg, filters)
    ensures (exists j | 0 <= j < |filters| :: filters[j].name == TagFilterName(k))
            <==> exists i | 0 <= i < |cfg.targets| :: k in cfg.targets[i].tags
    ensures forall j, l | 0 <= j < l < |filters| :: filters[j].name == TagFilterName(k) ==> filters[l].name != TagFilterName(k)
    ensures forall j | 0 <= j < |filters| && filters[j].name == TagFilterName(k) ::
              filters[j].values == TagValues(cfg.targets, k)
  {
    var fixed := FixedFilters(cfg);
    var tags := filters[|fixed|..];
    var name := TagFilterName(k);
    TagKeysIff(cfg.targets, k);
    forall j | 0 <= j < |filters| && filters[j].name == name
      ensures k in TagKeys(cfg.targets) && filters[j].values == TagValues(cfg.targets, k)
    {
      FilterNames(cfg, filters, j);
    }
    if k in TagKeys(cfg.targets) {
      var j :| 0 <= j < |tags| && tags[j].name == name;
      assert filters[|fixed| + j] == tags[j];
    }
    forall j, l | 0 <= j < l < |filters| && filters[j].name == name
      ensures filters[l].name != name
    {
      FilterNames(cfg, filters, j);
      FilterNames(cfg, filters, l);
    }
  }
}
