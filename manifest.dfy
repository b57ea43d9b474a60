/** The parts of an addon manifest the orchestrator reads, and how the resources of
    several manifests are merged into the one resource list the combined addon
    advertises. */
module Manifests {
  import opened Wrappers
  import opened JsText

  /** A resource with its content types and, optionally, the id prefixes it serves. */
  datatype Resource = Resource(name: string, types: seq<string>, idPrefixes: Option<seq<string>>)

  /** An entry of `manifest.resources`: a bare resource name, or a full resource. */
  datatype ResourceEntry = Named(name: string) | Full(resource: Resource)

  /** One extra a catalog accepts (`genre`, `search`, `skip`, ...). */
  datatype Extra = Extra(name: string, options: Option<seq<string>>, isRequired: Option<bool>)

  datatype Catalog = Catalog(id: string, catalogType: string, name: string, extra: Option<seq<Extra>>)

  datatype Manifest = Manifest(
    types: seq<string>,
    idPrefixes: Option<seq<string>>,
    resources: seq<ResourceEntry>,
    catalogs: seq<Catalog>,
    addonCatalogs: Option<seq<Catalog>>)

  /** A bare resource name stands for the manifest's own types and id prefixes. */
  function Strict(m: Manifest, e: ResourceEntry): (r: Resource)
    ensures e.Named? ==> r == Resource(e.name, m.types, m.idPrefixes)
    ensures e.Full? ==> r == e.resource
  {
    match e
    case Named(n) => Resource(n, m.types, m.idPrefixes)
    case Full(r) => r
  }

  function StrictResources(m: Manifest): (rs: seq<Resource>)
    ensures |rs| == |m.resources|
    ensures forall i :: 0 <= i < |rs| ==> rs[i] == Strict(m, m.resources[i])
  {
    seq(|m.resources|, i requires 0 <= i < |m.resources| => Strict(m, m.resources[i]))
  }

  /** `idPrefixes?.length` is truthy: the list is there and not empty. */
  predicate HasPrefixes(p: Option<seq<string>>) {
    p.Some? && |p.value| > 0
  }

  predicate UniqueNames(rs: seq<Resource>) {
    forall i, j :: 0 <= i < j < |rs| ==> rs[i].name != rs[j].name
  }

  /** `rs.findIndex(r => r.name === name)`. */
  function NameIndex(rs: seq<Resource>, name: string): (r: Option<nat>)
    ensures r.Some? ==> r.value < |rs| && rs[r.value].name == name
    ensures r.Some? ==> forall i :: 0 <= i < r.value ==> rs[i].name != name
    ensures r.None? ==> forall i :: 0 <= i < |rs| ==> rs[i].name != name
  {
    if |rs| == 0 then None
    else if rs[0].name == name then Some(0)
    else
      match NameIndex(rs[1..], name)
      case Some(i) => Some(i + 1)
      case None => None
  }

  /** `rs.find(r => r.name === name)`. */
  function Find(rs: seq<Resource>, name: string): Option<Resource> {
    match NameIndex(rs, name)
    case Some(i) => Some(rs[i])
    case None => None
  }

  /** A resource met for the first time: stored with its id prefixes only when
      it has some. */
  function Fresh(r: Resource): (f: Resource)
    ensures f.name == r.name && f.types == r.types
    ensures HasPrefixes(r.idPrefixes) ==> f.idPrefixes == r.idPrefixes
    ensures !HasPrefixes(r.idPrefixes) ==> f.idPrefixes.None?
  {
    r.(idPrefixes := if HasPrefixes(r.idPrefixes) then r.idPrefixes else None)
  }

  /** A resource merged into an existing one of the same name: the types become the
      union without repeats, first the existing ones; the id prefixes become the
      union only when both sides have some, and are dropped otherwise. */
  function Combined(e: Resource, r: Resource): (c: Resource)
    ensures c.name == e.name
    ensures forall t :: t in c.types <==> t in e.types || t in r.types
    ensures Distinct(c.types) && |Dedup(e.types)| <= |c.types| && c.types[..|Dedup(e.types)|] == Dedup(e.types)
    ensures c.types == Dedup(e.types) + DedupAfter(e.types, r.types)
    ensures c.idPrefixes.Some? <==> HasPrefixes(e.idPrefixes) && HasPrefixes(r.idPrefixes)
    ensures c.idPrefixes.Some? ==>
      Distinct(c.idPrefixes.value) &&
      forall p :: p in c.idPrefixes.value <==> p in e.idPrefixes.value || p in r.idPrefixes.value
    ensures c.idPrefixes.Some? ==>
      c.idPrefixes.value == Dedup(e.idPrefixes.value) + DedupAfter(e.idPrefixes.value, r.idPrefixes.value)
  {
    DedupDistinct(e.types + r.types);
    DedupPrefix(e.types, r.types);
    DedupAppend(e.types, r.types);
    if HasPrefixes(e.idPrefixes) && HasPrefixes(r.idPrefixes) then
      DedupDistinct(e.idPrefixes.value + r.idPrefixes.value);
      DedupAppend(e.idPrefixes.value, r.idPrefixes.value);
      e.(types := Dedup(e.types + r.types), idPrefixes := Some(Dedup(e.idPrefixes.value + r.idPrefixes.value)))
    else
      e.(types := Dedup(e.types + r.types), idPrefixes := None)
  }

  /** The resource list after one more resource is merged in: the resource of that
      name is combined with it, or the resource is added; every other name keeps
      its resource. */
  function Merged(rs: seq<Resource>, r: Resource): (m: seq<Resource>)
    ensures Find(m, r.name) == Some(match Find(rs, r.name) case Some(e) => Combined(e, r) case None => Fresh(r))
    ensures forall n :: n != r.name ==> Find(m, n) == Find(rs, n)
    ensures UniqueNames(rs) ==> UniqueNames(m)
    ensures |m| == |rs| + (if Find(rs, r.name).None? then 1 else 0)
    ensures forall i :: 0 <= i < |rs| ==> m[i].name == rs[i].name
  {
    match NameIndex(rs, r.name)
    case Some(i) =>
      var m := rs[i := Combined(rs[i], r)];
      NameIndexOfUpdate(rs, i, Combined(rs[i], r), r.name);
      forall n | n != r.name
        ensures Find(m, n) == Find(rs, n)
      {
        NameIndexOfUpdate(rs, i, Combined(rs[i], r), n);
      }
      m
    case None =>
      var m := rs + [Fresh(r)];
      NameIndexOfAppend(rs, Fresh(r), r.name);
      forall n | n != r.name
        ensures Find(m, n) == Find(rs, n)
      {
        NameIndexOfAppend(rs, Fresh(r), n);
      }
      m
  }

  lemma {:induction false} NameIndexOfUpdate(rs: seq<Resource>, i: nat, c: Resource, q: string)
    requires i < |rs| && c.name == rs[i].name
    ensures NameIndex(rs[i := c], q) == NameIndex(rs, q)
    decreases |rs|
  {
    if rs[0].name != q && i > 0 {
      assert rs[i := c][1..] == rs[1..][i - 1 := c];
      NameIndexOfUpdate(rs[1..], i - 1, c, q);
    }
  }

  lemma {:induction false} NameIndexOfAppend(rs: seq<Resource>, f: Resource, q: string)
    ensures NameIndex(rs + [f], q) == (match NameIndex(rs, q) case Some(i) => Some(i) case None => if f.name == q then Some(|rs|) else None)
    decreases |rs|
  {
    if |rs| > 0 && rs[0].name != q {
      assert (rs + [f])[1..] == rs[1..] + [f];
      NameIndexOfAppend(rs[1..], f, q);
    } else if |rs| == 0 {
      assert rs + [f] == [f];
    }
  }

  /** A stored resource never carries an empty id-prefix list: either it has prefixes
      or it has none at all. */
  predicate PrefixesNormal(rs: seq<Resource>) {
    forall i :: 0 <= i < |rs| ==> rs[i].idPrefixes.None? || |rs[i].idPrefixes.value| > 0
  }

  lemma MergedKeepsPrefixesNormal(rs: seq<Resource>, r: Resource)
    ensures PrefixesNormal(rs) ==> PrefixesNormal(Merged(rs, r))
  {
    var m := Merged(rs, r);
    match NameIndex(rs, r.name)
    case Some(i) =>
      assert m == rs[i := Combined(rs[i], r)];
      DedupNonEmpty(rs, i, r);
    case None =>
      assert m == rs + [Fresh(r)];
  }

  lemma DedupNonEmpty(rs: seq<Resource>, i: nat, r: Resource)
    requires i < |rs|
    ensures var c := Combined(rs[i], r); c.idPrefixes.None? || |c.idPrefixes.value| > 0
  {
    var c := Combined(rs[i], r);
    if c.idPrefixes.Some? {
      assert rs[i].idPrefixes.value[0] in c.idPrefixes.value;
    }
  }

  // ---------------------------------------------------------------------------
  // The addon's own restriction and the catalog lists

  /** `addon.resources` restricts the resources taken from its manifest when it is
      set and not empty. */
  predicate Admits(restriction: Option<seq<string>>, name: string) {
    !(restriction.Some? && |restriction.value| > 0 && name !in restriction.value)
  }

  /** The merge loop over one manifest's resources, skipping those the addon's
      restriction excludes. */
  function MergeAll(final: seq<Resource>, restriction: Option<seq<string>>, rs: seq<Resource>): (m: seq<Resource>)
    ensures UniqueNames(final) ==> UniqueNames(m)
    ensures PrefixesNormal(final) ==> PrefixesNormal(m)
    decreases |rs|
  {
    if |rs| == 0 then final
    else
      var before := MergeAll(final, restriction, rs[..|rs| - 1]);
      var r := rs[|rs| - 1];
      if Admits(restriction, r.name) then
        MergedKeepsPrefixesNormal(before, r);
        Merged(before, r)
      else before
  }

  lemma MergeAllStep(final: seq<Resource>, restriction: Option<seq<string>>, rs: seq<Resource>, i: nat)
    requires i < |rs|
    ensures MergeAll(final, restriction, rs[..i + 1])
         == if Admits(restriction, rs[i].name) then Merged(MergeAll(final, restriction, rs[..i]), rs[i])
            else MergeAll(final, restriction, rs[..i])
  {
    assert rs[..i + 1][..i] == rs[..i];
  }

  /** A name not admitted by the restriction never reaches the merged list through
      this manifest. */
  lemma {:induction false} MergeAllSkipsExcluded(final: seq<Resource>, restriction: Option<seq<string>>, rs: seq<Resource>, n: string)
    requires !Admits(restriction, n)
    ensures Find(MergeAll(final, restriction, rs), n) == Find(final, n)
    decreases |rs|
  {
    if |rs| > 0 {
      MergeAllSkipsExcluded(final, restriction, rs[..|rs| - 1], n);
    }
  }

  /** Every name the manifest offers and the restriction admits is in the merged list. */
  lemma {:induction false} MergeAllCoversAdmitted(final: seq<Resource>, restriction: Option<seq<string>>, rs: seq<Resource>, i: nat)
    requires i < |rs| && Admits(restriction, rs[i].name)
    ensures Find(MergeAll(final, restriction, rs), rs[i].name).Some?
    decreases |rs|
  {
    var init := rs[..|rs| - 1];
    var r := rs[|rs| - 1];
    if i < |rs| - 1 {
      MergeAllCoversAdmitted(final, restriction, init, i);
      var before := MergeAll(final, restriction, init);
      if Admits(restriction, r.name) && r.name != rs[i].name {
        assert Find(Merged(before, r), rs[i].name) == Find(before, rs[i].name);
      }
    }
  }

  /** Catalogs are taken from an addon that has no restriction or whose restriction
      includes "catalog". */
  predicate TakesCatalogs(restriction: Option<seq<string>>) {
    restriction.None? || |restriction.value| == 0 || "catalog" in restriction.value
  }

  /** The catalogs of one addon with their ids prefixed by its instance id. */
  function Prefixed(instanceId: string, cs: seq<Catalog>): (r: seq<Catalog>)
    ensures |r| == |cs|
    ensures forall i :: 0 <= i < |cs| ==> r[i] == cs[i].(id := instanceId + "." + cs[i].id)
  {
    seq(|cs|, i requires 0 <= i < |cs| => cs[i].(id := instanceId + "." + cs[i].id))
  }

  /** The meta resource, when it lists id prefixes, also serves the ids of the
      combined addon's own error entries. */
  function TagErrorPrefix(rs: seq<Resource>): (r: seq<Resource>)
    ensures |r| == |rs|
    ensures forall i :: 0 <= i < |rs| ==> r[i].name == rs[i].name && r[i].types == rs[i].types
    ensures forall i :: 0 <= i < |rs| && Some(i) != NameIndex(rs, "meta") ==> r[i] == rs[i]
    ensures match NameIndex(rs, "meta")
      case Some(i) =>
        (rs[i].idPrefixes.Some? ==> r[i].idPrefixes == Some(rs[i].idPrefixes.value + ["aiostreamserror"])) &&
        (rs[i].idPrefixes.None? ==> r[i] == rs[i])
      case None => r == rs
  {
    match NameIndex(rs, "meta")
    case Some(i) =>
      if rs[i].idPrefixes.Some? then
        rs[i := rs[i].(idPrefixes := Some(rs[i].idPrefixes.value + ["aiostreamserror"]))]
      else rs
    case None => rs
  }
}
