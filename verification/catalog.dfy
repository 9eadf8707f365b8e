/** The resolved catalog the browser worker reads: groups in configuration
    order, each listing its systems as `(id, descriptor)` in order. A
    descriptor is the merged system record. */
module Catalogs {
  import opened Dicts
  import opened Values

  type SysId = string
  type Descriptor = Dict<Value>
  type Group = Dict<Descriptor>
  type Catalog = seq<Group>

  /** Every system in catalog order: the first group's systems first. */
  function Entries(c: Catalog): seq<(SysId, Descriptor)>
  {
    if c == [] then [] else c[0] + Entries(c[1..])
  }

  /** The flattened catalog holds exactly the groups' entries, and as many
      of them as the groups together. */
  lemma {:induction false} EntriesOfGroups(c: Catalog, e: (SysId, Descriptor))
    ensures e in Entries(c) <==> exists g :: 0 <= g < |c| && e in c[g]
    ensures |Entries(c)| == TotalSize(c)
    decreases |c|
  {
    if c != [] {
      EntriesOfGroups(c[1..], e);
      if e in Entries(c[1..]) {
        var g :| 0 <= g < |c[1..]| && e in c[1..][g];
        assert c[g + 1] == c[1..][g];
      }
      if exists g :: 1 <= g < |c| && e in c[g] {
        var g :| 1 <= g < |c| && e in c[g];
        assert c[1..][g - 1] == c[g];
      }
    }
  }

  /** The number of systems across the groups. */
  function TotalSize(c: Catalog): nat
    decreases |c|
  {
    if c == [] then 0 else |c[0]| + TotalSize(c[1..])
  }

  /** The system ids in the order startup, `restart all` and polling visit them. */
  function Ids(c: Catalog): seq<SysId>
  {
    Keys(Entries(c))
  }

  /** `_get_system_config`: scan the groups in order and return the first
      group's entry for `id`, or `None`. */
  function FindSystem(c: Catalog, id: SysId): (r: Option<Descriptor>)
    ensures r == Lookup(Entries(c), id)
    ensures r.Some? <==> id in Ids(c)
  {
    HasKeyIff(Entries(c), id);
    if c == [] then None
    else
      LookupConcat(c[0], Entries(c[1..]), id);
      match Lookup(c[0], id)
      case Some(desc) => Some(desc)
      case None => FindSystem(c[1..], id)
  }

  /** The catalog's first entry for `id` is an entry of it. */
  lemma FindSystemIsEntry(c: Catalog, id: SysId)
    requires FindSystem(c, id).Some?
    ensures (id, FindSystem(c, id).value) in Entries(c)
  {
    var es := Entries(c);
    var i := Find(es, id);
    assert es[i] == (id, FindSystem(c, id).value);
  }

  /** A group's `systems` mapping as catalog entries; `None` when an entry is
      not a mapping, which the model's descriptors cannot represent. */
  function SystemsOf(systems: Dict<Value>): (r: Option<Group>)
    ensures r.Some? <==> forall j :: 0 <= j < |systems| ==> systems[j].1.Map?
    ensures r.Some? ==> |r.value| == |systems|
    ensures r.Some? ==> forall j :: 0 <= j < |systems| ==> r.value[j] == (systems[j].0, systems[j].1.entries)
    decreases |systems|
  {
    if systems == [] then Some([])
    else if !systems[0].1.Map? then None
    else
      match SystemsOf(systems[1..])
      case None =>
        assert exists j :: 0 <= j < |systems[1..]| && !systems[1..][j].1.Map?;
        None
      case Some(rest) =>
        var r := [(systems[0].0, systems[0].1.entries)] + rest;
        assert forall j :: 1 <= j < |systems| ==> systems[j] == systems[1..][j - 1] && r[j] == rest[j - 1];
        Some(r)
  }

  /** `group['systems'].items()` of one resolved group; `None` where Python
      would raise. */
  function GroupOf(group: Value): Option<Group>
  {
    if !group.Map? then None
    else
      match Lookup(group.entries, "systems")
      case Some(systems) => if systems.Map? then SystemsOf(systems.entries) else None
      case None => None
  }

  /** The catalog the worker iterates: the groups of `resolved_systems`, in
      order; `None` where reading the configuration that way would raise. */
  function CatalogOf(config: Dict<Value>): (r: Option<Catalog>)
  {
    var resolved := GetOr(config, "resolved_systems", Map([]));
    if resolved.Map? then GroupsOf(resolved.entries) else None
  }

  function GroupsOf(groups: Dict<Value>): (r: Option<Catalog>)
    ensures r.Some? <==> forall i :: 0 <= i < |groups| ==> GroupOf(groups[i].1).Some?
    ensures r.Some? ==> |r.value| == |groups|
    ensures r.Some? ==> forall i :: 0 <= i < |groups| ==> GroupOf(groups[i].1) == Some(r.value[i])
    decreases |groups|
  {
    if groups == [] then Some([])
    else
      match GroupOf(groups[0].1)
      case None => None
      case Some(first) =>
        match GroupsOf(groups[1..])
        case None =>
          assert exists i :: 0 <= i < |groups[1..]| && GroupOf(groups[1..][i].1).None?;
          None
        case Some(rest) =>
          var r := [first] + rest;
          assert forall i :: 1 <= i < |groups| ==> groups[i] == groups[1..][i - 1] && r[i] == rest[i - 1];
          Some(r)
  }
}
