/** The merge step of `load_config`: every configured system instance is
    resolved against the type definitions, the instance's own keys winning,
    and the result is stored beside the original configuration. Reading the
    two YAML files is outside the model; the function takes both documents
    already parsed into mappings. */
module ConfigLoader {
  import opened Dicts
  import opened Values
  import opened Catalogs

  /** `type_info.copy()` followed by `merged.update(sys_data)`, then an empty
      `actions` mapping when neither side defines one. */
  function Merge(typeInfo: Dict<Value>, sysData: Dict<Value>): Dict<Value>
  {
    var merged := Update(typeInfo, sysData);
    if HasKey(merged, "actions") then merged else Put(merged, "actions", Map([]))
  }

  /** The value the merge promises under key `k`. */
  function MergedEntry(typeInfo: Dict<Value>, sysData: Dict<Value>, k: string): Option<Value>
  {
    if HasKey(sysData, k) then Lookup(sysData, k)
    else if HasKey(typeInfo, k) then Lookup(typeInfo, k)
    else if k == "actions" then Some(Map([]))
    else None
  }

  /** The shallow merge: an instance key wins over the type's, every type key
      is kept, and `actions` is always present. */
  lemma MergeContents(typeInfo: Dict<Value>, sysData: Dict<Value>)
    requires UniqueKeys(sysData)
    ensures forall k :: Lookup(Merge(typeInfo, sysData), k) == MergedEntry(typeInfo, sysData, k)
    ensures HasKey(Merge(typeInfo, sysData), "actions")
    ensures Keys(typeInfo) <= Keys(Merge(typeInfo, sysData))
    ensures UniqueKeys(typeInfo) ==> UniqueKeys(Merge(typeInfo, sysData))
  {
    MergeLookup(typeInfo, sysData);
    MergeKeys(typeInfo, sysData);
  }

  lemma MergeLookup(typeInfo: Dict<Value>, sysData: Dict<Value>)
    requires UniqueKeys(sysData)
    ensures forall k :: Lookup(Merge(typeInfo, sysData), k) == MergedEntry(typeInfo, sysData, k)
  {
    UpdateValues(typeInfo, sysData);
    var merged := Update(typeInfo, sysData);
    if !HasKey(merged, "actions") {
      assert Lookup(merged, "actions").None?;
    }
  }

  lemma MergeKeys(typeInfo: Dict<Value>, sysData: Dict<Value>)
    ensures HasKey(Merge(typeInfo, sysData), "actions")
    ensures Keys(typeInfo) <= Keys(Merge(typeInfo, sysData))
    ensures UniqueKeys(typeInfo) ==> UniqueKeys(Merge(typeInfo, sysData))
  {
    UpdateKeys(typeInfo, sysData);
  }

  /** What happens to one system instance: `Ok(Some(m))` when it is kept with
      merged record `m`, `Ok(None)` when its type is unknown and it is skipped,
      `Exception` when the document's shape makes Python raise. */
  function ResolveSystem(typesDef: Dict<Value>, sysData: Value): Result<Option<Dict<Value>>>
  {
    if !sysData.Map? then Exception(NoAttribute(sysData, "get"))
    else
      match Get(typesDef, GetOr(sysData.entries, "type", Null))
      case Raises(m) => Exception(m)
      case Miss => Ok(None)
      case Hit(info) =>
        if info.Map? then Ok(Some(Merge(info.entries, sysData.entries)))
        else if info.List? then Exception(NoAttribute(info, "update"))
        else Exception(NoAttribute(info, "copy"))
  }

  /** An instance is dropped exactly when its `type` is not a key of the type
      definitions, and kept, merged with that type, exactly when it is. */
  lemma ResolveSystemCases(typesDef: Dict<Value>, sysData: Dict<Value>)
    ensures var t := GetOr(sysData, "type", Null);
      (ResolveSystem(typesDef, Map(sysData)) == Ok(None)) <==> (!t.List? && !t.Map? && !(t.Str? && HasKey(typesDef, t.s)))
    ensures var t := GetOr(sysData, "type", Null);
      t.Str? && HasKey(typesDef, t.s) && Lookup(typesDef, t.s).value.Map? ==>
        ResolveSystem(typesDef, Map(sysData)) == Ok(Some(Merge(Lookup(typesDef, t.s).value.entries, sysData)))
  {
  }

  /** The `systems` mapping of one group: kept instances in their order,
      under their own keys. A dict built by assignment from distinct keys
      lists them in assignment order, so the model builds the list directly. */
  function ResolveSystems(typesDef: Dict<Value>, systems: Dict<Value>): (r: Result<Dict<Value>>)
    ensures r.Ok? <==> forall i :: 0 <= i < |systems| ==> ResolveSystem(typesDef, systems[i].1).Ok?
    ensures r.Ok? ==> forall k :: HasKey(r.value, k) ==> HasKey(systems, k)
    ensures r.Ok? ==> forall j :: 0 <= j < |r.value| ==> r.value[j].1.Map?
    ensures r.Ok? && UniqueKeys(systems) ==> UniqueKeys(r.value)
    ensures r.Ok? && UniqueKeys(systems) ==> forall i :: 0 <= i < |systems| ==>
      Lookup(r.value, systems[i].0) == KeptAs(typesDef, systems[i].1)
  {
    if systems == [] then Ok([])
    else
      var head := ResolveSystem(typesDef, systems[0].1);
      var tail := ResolveSystems(typesDef, systems[1..]);
      EveryStep(systems, v => ResolveSystem(typesDef, v).Ok?);
      if head.Exception? then Exception(head.message)
      else if tail.Exception? then Exception(tail.message)
      else
        var r := if head.value.Some? then [(systems[0].0, Map(head.value.value))] + tail.value else tail.value;
        ResolveSystemsStep(typesDef, systems, tail.value, r);
        StepMappings(systems[0].0, head.value, tail.value, r);
        Ok(r)
  }

  lemma StepMappings(k: string, first: Option<Dict<Value>>, rest: Dict<Value>, r: Dict<Value>)
    requires forall j :: 0 <= j < |rest| ==> rest[j].1.Map?
    requires r == if first.Some? then [(k, Map(first.value))] + rest else rest
    ensures forall j :: 0 <= j < |r| ==> r[j].1.Map?
  {
  }

  lemma ResolveSystemsStep(typesDef: Dict<Value>, systems: Dict<Value>, rest: Dict<Value>, r: Dict<Value>)
    requires systems != []
    requires ResolveSystem(typesDef, systems[0].1).Ok?
    requires forall k :: HasKey(rest, k) ==> HasKey(systems[1..], k)
    requires UniqueKeys(systems[1..]) ==> UniqueKeys(rest)
    requires UniqueKeys(systems[1..]) ==> forall i :: 0 <= i < |systems[1..]| ==>
      Lookup(rest, systems[1..][i].0) == KeptAs(typesDef, systems[1..][i].1)
    requires var first := ResolveSystem(typesDef, systems[0].1).value;
      r == if first.Some? then [(systems[0].0, Map(first.value))] + rest else rest
    ensures forall k :: HasKey(r, k) ==> HasKey(systems, k)
    ensures UniqueKeys(systems) ==> UniqueKeys(r)
    ensures UniqueKeys(systems) ==> forall i :: 0 <= i < |systems| ==>
      Lookup(r, systems[i].0) == KeptAs(typesDef, systems[i].1)
  {
    var f := v => KeptAs(typesDef, v);
    assert forall i :: 1 <= i < |systems| ==> systems[i] == systems[1..][i - 1];
    assert f(systems[0].1) == KeptAs(typesDef, systems[0].1);
    FilterStep(systems, f, rest, r);
  }

  /** How an instance appears in its group's output mapping: under its key
      as the merged record when kept, not at all when skipped. */
  function KeptAs(typesDef: Dict<Value>, sysData: Value): Option<Value>
  {
    match ResolveSystem(typesDef, sysData)
    case Ok(Some(merged)) => Some(Map(merged))
    case _ => None
  }

  /** Every entry passes exactly when the first does and every later one does. */
  lemma EveryStep(entries: Dict<Value>, ok: Value -> bool)
    requires entries != []
    ensures (forall i :: 0 <= i < |entries| ==> ok(entries[i].1)) <==>
      ok(entries[0].1) && forall i :: 0 <= i < |entries[1..]| ==> ok(entries[1..][i].1)
  {
    if ok(entries[0].1) && forall i :: 0 <= i < |entries[1..]| ==> ok(entries[1..][i].1) {
      forall i | 1 <= i < |entries|
        ensures ok(entries[i].1)
      {
        assert entries[i] == entries[1..][i - 1];
      }
    }
    if exists i :: 0 <= i < |entries[1..]| && !ok(entries[1..][i].1) {
      var i :| 0 <= i < |entries[1..]| && !ok(entries[1..][i].1);
      assert entries[i + 1] == entries[1..][i];
    }
  }

  /** One step of building a mapping from the entries `f` keeps. */
  lemma FilterStep(entries: Dict<Value>, f: Value -> Option<Value>, rest: Dict<Value>, r: Dict<Value>)
    requires entries != []
    requires forall k :: HasKey(rest, k) ==> HasKey(entries[1..], k)
    requires UniqueKeys(entries[1..]) ==> UniqueKeys(rest)
    requires UniqueKeys(entries[1..]) ==> forall i :: 1 <= i < |entries| ==> Lookup(rest, entries[i].0) == f(entries[i].1)
    requires r == if f(entries[0].1).Some? then [(entries[0].0, f(entries[0].1).value)] + rest else rest
    ensures forall k :: HasKey(r, k) ==> HasKey(entries, k)
    ensures UniqueKeys(entries) ==> UniqueKeys(r)
    ensures UniqueKeys(entries) ==> forall i :: 0 <= i < |entries| ==> Lookup(r, entries[i].0) == f(entries[i].1)
  {
    var k0 := entries[0].0;
    var first := f(entries[0].1);
    TailKeys(entries);
    forall k | HasKey(r, k)
      ensures HasKey(entries, k)
    {
      if first.Some? {
        ConsHasKey(k0, first.value, rest, k);
      }
      if k == k0 {
        assert entries[0].0 == k;
      }
    }
    if UniqueKeys(entries) {
      if first.Some? {
        ConsUnique(k0, first.value, rest);
      }
      forall i | 0 <= i < |entries|
        ensures Lookup(r, entries[i].0) == f(entries[i].1)
      {
        if first.Some? {
          ConsLookup(k0, first.value, rest, entries[i].0);
        }
      }
    }
  }

  /** One group: its `name` (or `None`) and its resolved `systems`. */
  function ResolveGroup(typesDef: Dict<Value>, groupData: Value): Result<Value>
  {
    if !groupData.Map? then Exception(NoAttribute(groupData, "get"))
    else
      var systems := GetOr(groupData.entries, "systems", Map([]));
      if !systems.Map? then Exception(NoAttribute(systems, "items"))
      else
        match ResolveSystems(typesDef, systems.entries)
        case Exception(m) => Exception(m)
        case Ok(resolved) =>
          Ok(Map([("name", GetOr(groupData.entries, "name", Null)), ("systems", Map(resolved))]))
  }

  /** Every group, kept in order under its own key, whether or not any of its
      systems survived. */
  function ResolveGroups(typesDef: Dict<Value>, groups: Dict<Value>): (r: Result<Dict<Value>>)
    ensures r.Ok? <==> forall i :: 0 <= i < |groups| ==> ResolveGroup(typesDef, groups[i].1).Ok?
    ensures r.Ok? ==> Keys(r.value) == Keys(groups)
    ensures r.Ok? ==> forall i :: 0 <= i < |groups| ==> ResolveGroup(typesDef, groups[i].1) == Ok(r.value[i].1)
  {
    if groups == [] then Ok([])
    else
      match ResolveGroup(typesDef, groups[0].1)
      case Exception(m) => Exception(m)
      case Ok(first) =>
        match ResolveGroups(typesDef, groups[1..])
        case Exception(m) =>
          assert exists i :: 0 <= i < |groups[1..]| && !ResolveGroup(typesDef, groups[1..][i].1).Ok?;
          Exception(m)
        case Ok(rest) =>
          MapStep(groups, v => ResolveGroup(typesDef, v), first, rest);
          Ok([(groups[0].0, first)] + rest)
  }

  /** One step of mapping `f` over a mapping's values, keys unchanged. */
  lemma MapStep(entries: Dict<Value>, f: Value -> Result<Value>, first: Value, rest: Dict<Value>)
    requires entries != []
    requires f(entries[0].1) == Ok(first)
    requires Keys(rest) == Keys(entries[1..])
    requires forall i :: 0 <= i < |entries[1..]| ==> f(entries[1..][i].1) == Ok(rest[i].1)
    ensures Keys([(entries[0].0, first)] + rest) == Keys(entries)
    ensures forall i :: 0 <= i < |entries| ==> f(entries[i].1) == Ok(([(entries[0].0, first)] + rest)[i].1)
  {
    var r := [(entries[0].0, first)] + rest;
    assert forall i :: 1 <= i < |entries| ==> entries[i] == entries[1..][i - 1] && r[i] == rest[i - 1];
  }

  /** `load_config` after both files are parsed. */
  function LoadConfig(typesDef: Dict<Value>, configDef: Dict<Value>): Result<Dict<Value>>
  {
    var groups := GetOr(configDef, "systems", Map([]));
    if !groups.Map? then Exception(NoAttribute(groups, "items"))
    else
      match ResolveGroups(typesDef, groups.entries)
      case Exception(m) => Exception(m)
      case Ok(resolved) =>
        Ok(Put(Put(configDef, "resolved_systems", Map(resolved)), "types", Map(typesDef)))
  }

  /** The configuration comes back with every original key in its place and
      value, plus `resolved_systems` and `types`; `types` is the type
      definitions unchanged. */
  lemma LoadConfigOutput(typesDef: Dict<Value>, configDef: Dict<Value>)
    requires LoadConfig(typesDef, configDef).Ok?
    ensures var out := LoadConfig(typesDef, configDef).value;
      && Keys(configDef) <= Keys(out)
      && Lookup(out, "types") == Some(Map(typesDef))
      && Lookup(out, "resolved_systems") ==
           Some(Map(ResolveGroups(typesDef, GetOr(configDef, "systems", Map([])).entries).value))
      && (forall k :: k != "types" && k != "resolved_systems" ==> Lookup(out, k) == Lookup(configDef, k))
      && (forall k :: HasKey(out, k) <==> HasKey(configDef, k) || k == "types" || k == "resolved_systems")
      && (UniqueKeys(configDef) ==> UniqueKeys(out))
  {
    var groups := GetOr(configDef, "systems", Map([]));
    var resolved := ResolveGroups(typesDef, groups.entries).value;
    assert LoadConfig(typesDef, configDef) == Ok(Put(Put(configDef, "resolved_systems", Map(resolved)), "types", Map(typesDef)));
    StoredBeside(configDef, Map(resolved), Map(typesDef));
  }

  /** Storing the two results beside the configuration's own keys. */
  lemma StoredBeside(configDef: Dict<Value>, resolved: Value, types: Value)
    ensures var out := Put(Put(configDef, "resolved_systems", resolved), "types", types);
      && Keys(configDef) <= Keys(out)
      && Lookup(out, "types") == Some(types)
      && Lookup(out, "resolved_systems") == Some(resolved)
      && (forall k :: k != "types" && k != "resolved_systems" ==> Lookup(out, k) == Lookup(configDef, k))
      && (forall k :: HasKey(out, k) <==> HasKey(configDef, k) || k == "types" || k == "resolved_systems")
      && (UniqueKeys(configDef) ==> UniqueKeys(out))
  {
    var c1 := Put(configDef, "resolved_systems", resolved);
    var out := Put(c1, "types", types);
    assert Keys(configDef) <= Keys(c1);
    assert Keys(c1) <= Keys(out);
    forall k
      ensures HasKey(out, k) <==> HasKey(configDef, k) || k == "types" || k == "resolved_systems"
    {
      assert Lookup(out, k).Some? <==> HasKey(out, k);
      assert Lookup(c1, k).Some? <==> HasKey(c1, k);
      assert Lookup(configDef, k).Some? <==> HasKey(configDef, k);
    }
  }

  /** Every configured group appears in the output, in order, with its name. */
  lemma GroupsKeepNames(typesDef: Dict<Value>, configDef: Dict<Value>)
    requires LoadConfig(typesDef, configDef).Ok?
    ensures var groups := GetOr(configDef, "systems", Map([])).entries;
      var resolved := ResolveGroups(typesDef, groups).value;
      && Keys(resolved) == Keys(groups)
      && forall i :: 0 <= i < |groups| ==>
           && resolved[i].1.Map?
           && Lookup(resolved[i].1.entries, "name") == Some(GetOr(groups[i].1.entries, "name", Null))
  {
    var groups := GetOr(configDef, "systems", Map([])).entries;
    var resolved := ResolveGroups(typesDef, groups).value;
    forall i | 0 <= i < |groups|
      ensures resolved[i].1.Map?
      ensures Lookup(resolved[i].1.entries, "name") == Some(GetOr(groups[i].1.entries, "name", Null))
    {
      GroupKeepsName(typesDef, groups[i].1, resolved[i].1);
    }
  }

  lemma GroupKeepsName(typesDef: Dict<Value>, groupData: Value, out: Value)
    requires ResolveGroup(typesDef, groupData) == Ok(out)
    ensures groupData.Map? && out.Map?
    ensures Lookup(out.entries, "name") == Some(GetOr(groupData.entries, "name", Null))
  {
    assert Find(out.entries, "name") == 0;
  }

  /** In a resolved group, an instance of a known type is stored under its
      own key as the merged record, and one of an unknown type is absent. */
  lemma {:induction false} ResolvedGroupSystems(typesDef: Dict<Value>, groupData: Value)
    requires WellFormed(groupData)
    requires ResolveGroup(typesDef, groupData).Ok?
    ensures var out := ResolveGroup(typesDef, groupData).value;
      var systems := GetOr(groupData.entries, "systems", Map([])).entries;
      && out.Map? && Lookup(out.entries, "systems").Some? && Lookup(out.entries, "systems").value.Map?
      && var resolved := Lookup(out.entries, "systems").value.entries;
      && (forall k :: HasKey(resolved, k) ==> HasKey(systems, k))
      && forall i :: 0 <= i < |systems| ==>
           Lookup(resolved, systems[i].0) == KeptAs(typesDef, systems[i].1)
  {
    var systemsV := GetOr(groupData.entries, "systems", Map([]));
    if HasKey(groupData.entries, "systems") {
      LookupWellFormed(groupData.entries, "systems");
    }
    assert UniqueKeys(systemsV.entries);
    var out := ResolveGroup(typesDef, groupData).value;
    assert Find(out.entries, "systems") == 1;
  }

  /** The `systems` mapping a group of the configuration lists. */
  function SystemsIn(groupData: Value): Value
    requires groupData.Map?
  {
    GetOr(groupData.entries, "systems", Map([]))
  }

  /** A resolved group reads back as the catalog group of its kept instances. */
  lemma ResolvedGroupReads(typesDef: Dict<Value>, groupData: Value)
    requires ResolveGroup(typesDef, groupData).Ok?
    ensures groupData.Map? && SystemsIn(groupData).Map?
    ensures GroupOf(ResolveGroup(typesDef, groupData).value) ==
      SystemsOf(ResolveSystems(typesDef, SystemsIn(groupData).entries).value)
    ensures GroupOf(ResolveGroup(typesDef, groupData).value).Some?
  {
    assert Find(ResolveGroup(typesDef, groupData).value.entries, "systems") == 1;
  }

  /** A loaded configuration always yields the worker's catalog: one group
      per configured group, in order, each listing exactly the instances its
      group kept, as their merged records. */
  lemma LoadedCatalog(typesDef: Dict<Value>, configDef: Dict<Value>)
    requires LoadConfig(typesDef, configDef).Ok?
    ensures var groups := GetOr(configDef, "systems", Map([])).entries;
      var cat := CatalogOf(LoadConfig(typesDef, configDef).value);
      && cat.Some?
      && |cat.value| == |groups|
      && forall i :: 0 <= i < |groups| ==>
           && groups[i].1.Map? && SystemsIn(groups[i].1).Map?
           && Some(cat.value[i]) == SystemsOf(ResolveSystems(typesDef, SystemsIn(groups[i].1).entries).value)
  {
    LoadConfigOutput(typesDef, configDef);
    var groups := GetOr(configDef, "systems", Map([])).entries;
    var out := LoadConfig(typesDef, configDef).value;
    assert GetOr(out, "resolved_systems", Map([])) == Map(ResolveGroups(typesDef, groups).value);
    GroupsRead(typesDef, groups);
  }

  /** Each resolved group reads back as the catalog group of its own kept
      instances. */
  lemma GroupsRead(typesDef: Dict<Value>, groups: Dict<Value>)
    requires ResolveGroups(typesDef, groups).Ok?
    ensures var cat := GroupsOf(ResolveGroups(typesDef, groups).value);
      && cat.Some?
      && |cat.value| == |groups|
      && forall i :: 0 <= i < |groups| ==>
           && groups[i].1.Map? && SystemsIn(groups[i].1).Map?
           && Some(cat.value[i]) == SystemsOf(ResolveSystems(typesDef, SystemsIn(groups[i].1).entries).value)
  {
    var resolved := ResolveGroups(typesDef, groups).value;
    forall i | 0 <= i < |groups|
      ensures groups[i].1.Map? && SystemsIn(groups[i].1).Map?
      ensures GroupOf(resolved[i].1) == SystemsOf(ResolveSystems(typesDef, SystemsIn(groups[i].1).entries).value)
      ensures GroupOf(resolved[i].1).Some?
    {
      assert ResolveGroup(typesDef, groups[i].1) == Ok(resolved[i].1);
      ResolvedGroupReads(typesDef, groups[i].1);
    }
  }
}
