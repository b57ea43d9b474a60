/** The deterministic rules of the `AIOStreams` orchestrator: which addons a stream
    or meta request goes to, how the stream list is assembled and extended with
    download copies, when the next episode is pre-cached, how presets become
    addons, and how manifests are merged into the combined addon's resources and
    catalogs. */
module Orchestrator {
  import opened Wrappers
  import opened JsText
  import opened Types
  import opened Manifests
  import opened CatalogModifications
  import opened Episodes
  import CatalogExtrasModel

  /** A preset as configured by the user (its options are opaque to the core). */
  datatype Preset = Preset(presetType: string, instanceId: string, enabled: bool)

  /** The fields of the user's configuration the orchestrator reads. */
  datatype UserData = UserData(
    uuid: string,
    presets: Option<seq<Preset>>,
    catalogModifications: Option<seq<Modification>>,
    precacheNextEpisode: bool,
    alwaysPrecache: bool,
    externalDownloads: bool,
    excludeUncached: bool,
    groups: Option<seq<string>>)

  datatype AIOError = AIOError(title: string, description: string)

  /** A JavaScript object keyed by instance id, as its entries in insertion order. */
  type Keyed<V> = seq<(string, V)>

  predicate UniqueKeys<V>(es: Keyed<V>) {
    forall i, j :: 0 <= i < j < |es| ==> es[i].0 != es[j].0
  }

  function KeyIndex<V>(es: Keyed<V>, k: string): (r: Option<nat>)
    ensures r.Some? ==> r.value < |es| && es[r.value].0 == k
    ensures r.None? ==> forall i :: 0 <= i < |es| ==> es[i].0 != k
  {
    if |es| == 0 then None
    else if es[0].0 == k then Some(0)
    else
      match KeyIndex(es[1..], k)
      case Some(i) => Some(i + 1)
      case None => None
  }

  /** `obj[k] = v`: an existing key keeps its place, a new one goes last. */
  function Assign<V>(es: Keyed<V>, k: string, v: V): (r: Keyed<V>)
    ensures UniqueKeys(es) ==> UniqueKeys(r)
    ensures exists i :: 0 <= i < |r| && r[i] == (k, v)
    ensures forall i :: 0 <= i < |es| && es[i].0 != k ==> es[i] in r
    ensures forall p :: p in r ==> p == (k, v) || p in es
  {
    match KeyIndex(es, k)
    case Some(i) =>
      var r := es[i := (k, v)];
      assert r[i] == (k, v);
      assert forall j :: 0 <= j < |es| && es[j].0 != k ==> es[j] == r[j];
      r
    case None =>
      var r := es + [(k, v)];
      assert r[|es|] == (k, v);
      assert forall j :: 0 <= j < |es| ==> es[j] == r[j];
      r
  }

  /** `this.addons.find(a => a.instanceId === instanceId)`. */
  function FindAddon(addons: seq<Addon>, instanceId: string): (r: Option<Addon>)
    ensures r.Some? ==> r.value in addons && r.value.instanceId == instanceId
    ensures r.None? ==> forall a :: a in addons ==> a.instanceId != instanceId
  {
    if |addons| == 0 then None
    else if addons[0].instanceId == instanceId then Some(addons[0])
    else FindAddon(addons[1..], instanceId)
  }

  // ---------------------------------------------------------------------------
  // Stream requests: which addons are asked

  /** A resource answers a stream request for this type and id: it is the stream
      resource, lists the type, and either lists no id prefixes or lists one the
      id starts with. An empty prefix list is still a list, so it serves no id. */
  predicate ServesStream(r: Resource, streamType: string, id: string) {
    r.name == "stream" && streamType in r.types &&
    (r.idPrefixes.Some? ==> exists p :: p in r.idPrefixes.value && StartsWith(id, p))
  }

  predicate AnyServesStream(rs: seq<Resource>, streamType: string, id: string) {
    exists r :: r in rs && ServesStream(r, streamType, id)
  }

  /** The addons a stream request is sent to, in the order of the resource table. */
  function StreamAddons(supported: Keyed<seq<Resource>>, addons: seq<Addon>, streamType: string, id: string): (r: seq<Addon>)
    ensures |r| <= |supported|
  {
    if |supported| == 0 then []
    else
      var before := StreamAddons(supported[..|supported| - 1], addons, streamType, id);
      var e := supported[|supported| - 1];
      if AnyServesStream(e.1, streamType, id) && FindAddon(addons, e.0).Some? then
        before + [FindAddon(addons, e.0).value]
      else before
  }

  /** Entry `i` of the resource table serves the request and names addon `a`. */
  predicate ChosenAt(supported: Keyed<seq<Resource>>, addons: seq<Addon>, streamType: string, id: string, a: Addon, i: int) {
    0 <= i < |supported| && AnyServesStream(supported[i].1, streamType, id) &&
    FindAddon(addons, supported[i].0) == Some(a)
  }

  /** An addon is asked for streams exactly when one of its resources serves the
      request and its instance id names a configured addon. */
  lemma {:induction false} StreamAddonsIff(supported: Keyed<seq<Resource>>, addons: seq<Addon>, streamType: string, id: string, a: Addon)
    ensures a in StreamAddons(supported, addons, streamType, id) <==>
      exists i :: ChosenAt(supported, addons, streamType, id, a, i)
    decreases |supported|
  {
    if |supported| > 0 {
      var init := supported[..|supported| - 1];
      StreamAddonsIff(init, addons, streamType, id, a);
      if exists i :: ChosenAt(supported, addons, streamType, id, a, i) {
        var i :| ChosenAt(supported, addons, streamType, id, a, i);
        if i < |init| {
          assert init[i] == supported[i];
          assert ChosenAt(init, addons, streamType, id, a, i);
        }
      }
      if exists i :: ChosenAt(init, addons, streamType, id, a, i) {
        var i :| ChosenAt(init, addons, streamType, id, a, i);
        assert supported[i] == init[i];
        assert ChosenAt(supported, addons, streamType, id, a, i);
      }
      var e := supported[|supported| - 1];
      var before := StreamAddons(init, addons, streamType, id);
      if a in StreamAddons(supported, addons, streamType, id) && a !in before {
        assert AnyServesStream(e.1, streamType, id) && FindAddon(addons, e.0) == Some(a);
        assert ChosenAt(supported, addons, streamType, id, a, |init|);
      }
    }
  }

  /** A resource with an empty id-prefix list is never chosen for a stream request. */
  lemma EmptyPrefixListServesNothing(r: Resource, streamType: string, id: string)
    requires r.idPrefixes == Some([])
    ensures !ServesStream(r, streamType, id)
  {
  }

  // ---------------------------------------------------------------------------
  // Stream requests: assembling the answer

  datatype FetchResult = FetchResult(streams: seq<ParsedStream>, errors: seq<AIOError>, statistics: seq<AIOError>)

  /** The stages of the stream pipeline whose logic lies outside the core, and the
      helpers whose definitions are not part of this model. */
  datatype Stages = Stages(
    fetch: (seq<Addon>, string, string) -> FetchResult,
    deduplicate: seq<ParsedStream> -> seq<ParsedStream>,
    sort: (seq<ParsedStream>, string) -> seq<ParsedStream>,
    limit: seq<ParsedStream> -> seq<ParsedStream>,
    applyExpressions: seq<ParsedStream> -> seq<ParsedStream>,
    proxify: seq<ParsedStream> -> seq<ParsedStream>,
    modifyStreams: seq<ParsedStream> -> seq<ParsedStream>,
    downloadable: ParsedStream -> ParsedStream,
    addonName: Addon -> string)

  /** The sort is told "anime" for kitsu ids and the request type otherwise. */
  function SortKind(streamType: string, id: string): string {
    if StartsWith(id, "kitsu") then "anime" else streamType
  }

  function WithoutTag(tags: seq<string>, t: string): (r: seq<string>)
    ensures forall x :: x in r <==> x in tags && x != t
    ensures |r| <= |tags|
  {
    if |tags| == 0 then []
    else
      var w := WithoutTag(tags[..|tags| - 1], t);
      assert tags == tags[..|tags| - 1] + [tags[|tags| - 1]];
      if tags[|tags| - 1] == t then w else w + [tags[|tags| - 1]]
  }

  /** The combined "HDR+DV" visual tag is removed once sorting is done. */
  function DropHdrDv(s: ParsedStream): (r: ParsedStream)
    ensures r.parsedFile.Some? <==> s.parsedFile.Some?
    ensures r.parsedFile.Some? ==> "HDR+DV" !in r.parsedFile.value.visualTags
    ensures r.parsedFile.Some? ==> forall t :: t != "HDR+DV" ==> (t in r.parsedFile.value.visualTags <==> t in s.parsedFile.value.visualTags)
    ensures r == s.(parsedFile := r.parsedFile)
  {
    match s.parsedFile
    case Some(pf) =>
      if "HDR+DV" in pf.visualTags then s.(parsedFile := Some(pf.(visualTags := WithoutTag(pf.visualTags, "HDR+DV"))))
      else s
    case None => s
  }

  function DropHdrDvAll(ss: seq<ParsedStream>): (r: seq<ParsedStream>)
    ensures |r| == |ss|
    ensures forall i :: 0 <= i < |ss| ==> r[i] == DropHdrDv(ss[i])
  {
    seq(|ss|, i requires 0 <= i < |ss| => DropHdrDv(ss[i]))
  }

  /** A stream followed by its download copy when it has a url. */
  function Chunk(s: ParsedStream, downloadable: ParsedStream -> ParsedStream): seq<ParsedStream> {
    if Present(s.url) then [s, downloadable(s)] else [s]
  }

  function WithDownloads(ss: seq<ParsedStream>, downloadable: ParsedStream -> ParsedStream): seq<ParsedStream> {
    if |ss| == 0 then []
    else WithDownloads(ss[..|ss| - 1], downloadable) + Chunk(ss[|ss| - 1], downloadable)
  }

  function CountWithUrl(ss: seq<ParsedStream>): (n: nat)
    ensures n <= |ss|
  {
    if |ss| == 0 then 0
    else CountWithUrl(ss[..|ss| - 1]) + (if Present(ss[|ss| - 1].url) then 1 else 0)
  }

  /** With download copies the list grows by exactly the streams that have a url. */
  lemma {:induction false} WithDownloadsLength(ss: seq<ParsedStream>, downloadable: ParsedStream -> ParsedStream)
    ensures |WithDownloads(ss, downloadable)| == |ss| + CountWithUrl(ss)
    decreases |ss|
  {
    if |ss| > 0 {
      WithDownloadsLength(ss[..|ss| - 1], downloadable);
    }
  }

  /** Stream `k` sits after the `k` streams before it and their download copies,
      and its own copy, when it has a url, comes right after it. */
  lemma {:induction false} WithDownloadsAt(ss: seq<ParsedStream>, downloadable: ParsedStream -> ParsedStream, k: nat)
    requires k < |ss|
    ensures var pos := k + CountWithUrl(ss[..k]); var out := WithDownloads(ss, downloadable);
      pos < |out| && out[pos] == ss[k] &&
      (Present(ss[k].url) ==> pos + 1 < |out| && out[pos + 1] == downloadable(ss[k]))
    decreases |ss|
  {
    var init := ss[..|ss| - 1];
    assert WithDownloads(ss, downloadable) == WithDownloads(init, downloadable) + Chunk(ss[|ss| - 1], downloadable);
    if k < |ss| - 1 {
      WithDownloadsAt(init, downloadable, k);
      assert init[..k] == ss[..k];
      assert init[k] == ss[k];
    } else {
      WithDownloadsLength(init, downloadable);
      assert ss[..k] == init;
    }
  }

  /** The streams after the pipeline, before any download copies. */
  function PipelineStreams(stages: Stages, fetched: seq<ParsedStream>, streamType: string, id: string): seq<ParsedStream> {
    var sorted := stages.sort(stages.deduplicate(fetched), SortKind(streamType, id));
    stages.proxify(stages.applyExpressions(stages.limit(DropHdrDvAll(sorted))))
  }

  /** An initialisation failure shown beside the fetch errors. */
  function InitError(stages: Stages, failure: (Addon, string)): AIOError {
    AIOError("[❌] " + stages.addonName(failure.0), failure.1)
  }

  function InitErrors(stages: Stages, failures: seq<(Addon, string)>): (r: seq<AIOError>)
    ensures |r| == |failures|
    ensures forall i :: 0 <= i < |failures| ==> r[i] == InitError(stages, failures[i])
  {
    seq(|failures|, i requires 0 <= i < |failures| => InitError(stages, failures[i]))
  }

  datatype StreamsResponse = StreamsResponse(success: bool, streams: seq<ParsedStream>, statistics: seq<AIOError>, errors: seq<AIOError>)

  /** The answer to a stream request: the pipeline's streams (each followed by its
      download copy when the user wants external downloads), the fetch statistics,
      and the fetch errors followed by the initialisation errors. */
  function StreamsFor(supported: Keyed<seq<Resource>>, addons: seq<Addon>, initErrors: seq<(Addon, string)>,
                      userData: UserData, stages: Stages, streamType: string, id: string): StreamsResponse
  {
    var fetched := stages.fetch(StreamAddons(supported, addons, streamType, id), streamType, id);
    var shown := stages.modifyStreams(PipelineStreams(stages, fetched.streams, streamType, id));
    StreamsResponse(
      true,
      if userData.externalDownloads then WithDownloads(shown, stages.downloadable) else shown,
      fetched.statistics,
      fetched.errors + InitErrors(stages, initErrors))
  }

  /** Each stream with a url is followed by its download copy. */
  method AddExternalDownloads(ss: seq<ParsedStream>, downloadable: ParsedStream -> ParsedStream) returns (out: seq<ParsedStream>)
    ensures out == WithDownloads(ss, downloadable)
  {
    out := [];
    for i := 0 to |ss|
      invariant out == WithDownloads(ss[..i], downloadable)
    {
      assert ss[..i + 1][..i] == ss[..i];
      out := out + [ss[i]];
      if Present(ss[i].url) {
        out := out + [downloadable(ss[i])];
      }
    }
    assert ss[..|ss|] == ss;
  }

  /** The cache key that records a pre-cache for this user, type and id. */
  function PrecacheKey(streamType: string, id: string, uuid: string): string {
    "precache-" + streamType + "-" + id + "-" + uuid
  }

  /** The settings the next episode is requested with: uncached streams are
      kept and no stream groups apply. */
  function ForPrecaching(u: UserData): (r: UserData)
    ensures !r.excludeUncached && r.groups.None?
    ensures r.uuid == u.uuid && r.alwaysPrecache == u.alwaysPrecache && r.precacheNextEpisode == u.precacheNextEpisode
  {
    u.(excludeUncached := false, groups := None)
  }

  /** The next episode is pre-cached when the user asks for it, the request is not
      itself a pre-cache, and no pre-cache of this id is recorded for the user. */
  predicate ShouldPrecache(userData: UserData, preCaching: bool, cache: map<string, seq<ParsedStream>>, streamType: string, id: string) {
    userData.precacheNextEpisode && !preCaching && PrecacheKey(streamType, id, userData.uuid) !in cache
  }

  // ---------------------------------------------------------------------------
  // Pre-caching the next episode

  function ServiceStreams(ss: seq<ParsedStream>): (r: seq<ParsedStream>)
    ensures forall s :: s in r <==> s in ss && s.service.Some?
  {
    if |ss| == 0 then []
    else
      var w := ServiceStreams(ss[..|ss| - 1]);
      assert ss == ss[..|ss| - 1] + [ss[|ss| - 1]];
      if ss[|ss| - 1].service.Some? then w + [ss[|ss| - 1]] else w
  }

  predicate Uncached(s: ParsedStream) {
    s.service.Some? && !s.service.value.cached
  }

  /** `i` is the position of the first uncached stream. */
  predicate FirstUncachedAt(ss: seq<ParsedStream>, i: nat) {
    i < |ss| && Uncached(ss[i]) && forall j :: 0 <= j < i ==> !Uncached(ss[j])
  }

  /** `find` of the first stream whose service is marked uncached. */
  function FirstUncached(ss: seq<ParsedStream>): (r: Option<ParsedStream>)
    ensures r.Some? ==> r.value in ss && Uncached(r.value)
    ensures r.None? ==> forall s :: s in ss ==> !Uncached(s)
    ensures forall i: nat :: FirstUncachedAt(ss, i) ==> r == Some(ss[i])
  {
    if |ss| == 0 then None
    else if Uncached(ss[0]) then Some(ss[0])
    else
      var r := FirstUncached(ss[1..]);
      assert forall i: nat :: FirstUncachedAt(ss, i) ==> i > 0 && FirstUncachedAt(ss[1..], i - 1);
      r
  }

  /** The stream whose url is requested to start caching the next episode: the
      first uncached service stream, when every service stream is uncached or the
      user always pre-caches, provided it has a url. */
  function PrecacheTarget(ss: seq<ParsedStream>, alwaysPrecache: bool): (r: Option<ParsedStream>)
    ensures r.Some? ==> r.value in ss && Uncached(r.value) && Present(r.value.url)
    ensures !alwaysPrecache && (exists s :: s in ss && s.service.Some? && s.service.value.cached) ==> r.None?
    ensures ((forall s :: s in ServiceStreams(ss) ==> Uncached(s)) || alwaysPrecache)
            && FirstUncached(ServiceStreams(ss)).Some? && Present(FirstUncached(ServiceStreams(ss)).value.url)
            ==> r == FirstUncached(ServiceStreams(ss))
  {
    var services := ServiceStreams(ss);
    if (forall s :: s in services ==> Uncached(s)) || alwaysPrecache then
      match FirstUncached(services)
      case Some(t) => if Present(t.url) then Some(t) else None
      case None => None
    else None
  }

  /** The cache after a pre-cache attempt: the next episode's streams are recorded
      under the current request's key when a target was found and its url answered. */
  function CacheAfterPrecache(cache: map<string, seq<ParsedStream>>, key: string, next: StreamsResponse,
                              alwaysPrecache: bool, ping: (Addon, string) -> bool): map<string, seq<ParsedStream>>
  {
    if !next.success then cache
    else
      match PrecacheTarget(next.streams, alwaysPrecache)
      case Some(t) => if ping(t.addon, t.url.value) then cache[key := next.streams] else cache
      case None => cache
  }

  // ---------------------------------------------------------------------------
  // Meta requests: the candidate list

  datatype Candidate = Candidate(instanceId: string, addon: Addon, general: bool)

  predicate ServesMetaByPrefix(r: Resource, metaType: string, id: string) {
    r.name == "meta" && metaType in r.types && r.idPrefixes.Some? &&
    exists p :: p in r.idPrefixes.value && StartsWith(id, p)
  }

  predicate ServesMetaGenerally(r: Resource, metaType: string) {
    r.name == "meta" && metaType in r.types && !HasPrefixes(r.idPrefixes)
  }

  predicate AnyServesByPrefix(rs: seq<Resource>, metaType: string, id: string) {
    exists r :: r in rs && ServesMetaByPrefix(r, metaType, id)
  }

  predicate AnyServesGenerally(rs: seq<Resource>, metaType: string) {
    exists r :: r in rs && ServesMetaGenerally(r, metaType)
  }

  predicate Taken(cs: seq<Candidate>, instanceId: string) {
    exists c :: c in cs && c.instanceId == instanceId
  }

  predicate DistinctIds(cs: seq<Candidate>) {
    forall i, j :: 0 <= i < j < |cs| ==> cs[i].instanceId != cs[j].instanceId
  }

  predicate HasKey<V>(es: Keyed<V>, k: string) {
    exists i :: 0 <= i < |es| && es[i].0 == k
  }

  /** The first pass: addons with a meta resource whose id prefixes match. */
  function PrefixCandidates(supported: Keyed<seq<Resource>>, addons: seq<Addon>, metaType: string, id: string): (r: seq<Candidate>)
    ensures forall c :: c in r ==> !c.general && HasKey(supported, c.instanceId)
    ensures UniqueKeys(supported) ==> DistinctIds(r)
  {
    if |supported| == 0 then []
    else
      var init := supported[..|supported| - 1];
      var before := PrefixCandidates(init, addons, metaType, id);
      var e := supported[|supported| - 1];
      assert forall c :: c in before ==> HasKey(supported, c.instanceId) by {
        forall c | c in before ensures HasKey(supported, c.instanceId) {
          var i :| 0 <= i < |init| && init[i].0 == c.instanceId;
          assert supported[i] == init[i];
        }
      }
      if AnyServesByPrefix(e.1, metaType, id) && FindAddon(addons, e.0).Some? then
        var r := before + [Candidate(e.0, FindAddon(addons, e.0).value, false)];
        assert UniqueKeys(supported) ==> DistinctIds(r) by {
          if UniqueKeys(supported) {
            assert UniqueKeys(init);
            forall c | c in before ensures c.instanceId != e.0 {
              var i :| 0 <= i < |init| && init[i].0 == c.instanceId;
              assert supported[i].0 != supported[|supported| - 1].0;
            }
            forall i, j | 0 <= i < j < |r| ensures r[i].instanceId != r[j].instanceId {
              if j == |before| {
                assert r[i] in before;
              } else {
                assert r[i] == before[i] && r[j] == before[j];
              }
            }
          }
        }
        r
      else
        assert UniqueKeys(supported) ==> UniqueKeys(init);
        before
  }

  /** The second pass: addons not yet listed with a meta resource for the type
      that lists no id prefixes. */
  function GeneralCandidates(supported: Keyed<seq<Resource>>, addons: seq<Addon>, metaType: string, acc: seq<Candidate>): (r: seq<Candidate>)
    ensures |acc| <= |r| && r[..|acc|] == acc
    ensures forall i :: |acc| <= i < |r| ==> r[i].general
    ensures DistinctIds(acc) ==> DistinctIds(r)
  {
    if |supported| == 0 then acc
    else
      var before := GeneralCandidates(supported[..|supported| - 1], addons, metaType, acc);
      var e := supported[|supported| - 1];
      if Taken(before, e.0) then before
      else if AnyServesGenerally(e.1, metaType) && FindAddon(addons, e.0).Some? then
        var r := before + [Candidate(e.0, FindAddon(addons, e.0).value, true)];
        assert r[..|before|] == before;
        assert r[..|acc|] == before[..|acc|];
        assert DistinctIds(before) ==> DistinctIds(r) by {
          if DistinctIds(before) {
            forall i, j | 0 <= i < j < |r| ensures r[i].instanceId != r[j].instanceId {
              if j == |before| {
                assert r[i] in before;
              } else {
                assert r[i] == before[i] && r[j] == before[j];
              }
            }
          }
        }
        r
      else before
  }

  lemma PrefixCandidatesStep(supported: Keyed<seq<Resource>>, i: nat, addons: seq<Addon>, metaType: string, id: string)
    requires i < |supported|
    ensures PrefixCandidates(supported[..i + 1], addons, metaType, id)
         == var e := supported[i];
            var before := PrefixCandidates(supported[..i], addons, metaType, id);
            if AnyServesByPrefix(e.1, metaType, id) && FindAddon(addons, e.0).Some? then
              before + [Candidate(e.0, FindAddon(addons, e.0).value, false)]
            else before
  {
    assert supported[..i + 1][..i] == supported[..i];
  }

  lemma GeneralCandidatesStep(supported: Keyed<seq<Resource>>, i: nat, addons: seq<Addon>, metaType: string, acc: seq<Candidate>)
    requires i < |supported|
    ensures GeneralCandidates(supported[..i + 1], addons, metaType, acc)
         == var e := supported[i];
            var before := GeneralCandidates(supported[..i], addons, metaType, acc);
            if Taken(before, e.0) then before
            else if AnyServesGenerally(e.1, metaType) && FindAddon(addons, e.0).Some? then
              before + [Candidate(e.0, FindAddon(addons, e.0).value, true)]
            else before
  {
    assert supported[..i + 1][..i] == supported[..i];
  }

  function MetaCandidates(supported: Keyed<seq<Resource>>, addons: seq<Addon>, metaType: string, id: string): seq<Candidate> {
    GeneralCandidates(supported, addons, metaType, PrefixCandidates(supported, addons, metaType, id))
  }

  /** The candidates matching by id prefix come first, then the type-only ones,
      and no addon is tried twice. */
  lemma MetaCandidatesOrder(supported: Keyed<seq<Resource>>, addons: seq<Addon>, metaType: string, id: string)
    requires UniqueKeys(supported)
    ensures var cs := MetaCandidates(supported, addons, metaType, id);
      var n := |PrefixCandidates(supported, addons, metaType, id)|;
      n <= |cs| && DistinctIds(cs) &&
      (forall i :: 0 <= i < n ==> !cs[i].general) &&
      (forall i :: n <= i < |cs| ==> cs[i].general)
  {
    var p := PrefixCandidates(supported, addons, metaType, id);
    var cs := MetaCandidates(supported, addons, metaType, id);
    forall i | 0 <= i < |p| ensures !cs[i].general {
      assert cs[i] == cs[..|p|][i] == p[i];
    }
  }

  datatype MetaResponse<M> = MetaResponse(success: bool, data: Option<M>, errors: seq<AIOError>)

  /** Trying the candidates in order: the first answer wins and clears the errors;
      failures of type-only candidates leave no error. */
  function Attempt<M>(cs: seq<Candidate>, fetch: Addon -> Result<M, string>, errors: seq<AIOError>): MetaResponse<M>
    decreases |cs|
  {
    if |cs| == 0 then MetaResponse(false, None, errors)
    else
      match fetch(cs[0].addon)
      case Success(m) => MetaResponse(true, Some(m), [])
      case Failure(msg) =>
        Attempt(cs[1..], fetch, if cs[0].general then errors else errors + [AIOError("[❌] " + cs[0].addon.name, msg)])
  }

  /** The error list when every candidate fails: one entry per id-prefix candidate. */
  function PrefixFailures<M>(cs: seq<Candidate>, fetch: Addon -> Result<M, string>): (r: seq<AIOError>)
    requires forall c :: c in cs ==> fetch(c.addon).Failure?
    ensures |r| <= |cs|
  {
    if |cs| == 0 then []
    else
      var rest := PrefixFailures(cs[1..], fetch);
      if cs[0].general then rest
      else [AIOError("[❌] " + cs[0].addon.name, fetch(cs[0].addon).error)] + rest
  }

  /** Candidate `i` is the first whose request succeeds. */
  predicate FirstSuccess<M>(cs: seq<Candidate>, fetch: Addon -> Result<M, string>, i: int) {
    0 <= i < |cs| && fetch(cs[i].addon).Success? &&
    forall j :: 0 <= j < i ==> fetch(cs[j].addon).Failure?
  }

  /** An answer is the first candidate's that succeeds; when all fail, the errors
      are exactly those of the id-prefix candidates, in order. */
  lemma {:induction false} AttemptOutcome<M>(cs: seq<Candidate>, fetch: Addon -> Result<M, string>, errors: seq<AIOError>)
    ensures var r := Attempt(cs, fetch, errors);
      r.success <==> exists i :: 0 <= i < |cs| && fetch(cs[i].addon).Success?
    ensures var r := Attempt(cs, fetch, errors);
      r.success ==> exists i :: FirstSuccess(cs, fetch, i) && r.data == Some(fetch(cs[i].addon).value) && r.errors == []
    ensures (forall c :: c in cs ==> fetch(c.addon).Failure?) ==>
      Attempt(cs, fetch, errors) == MetaResponse(false, None, errors + PrefixFailures(cs, fetch))
    decreases |cs|
  {
    if |cs| > 0 {
      if fetch(cs[0].addon).Failure? {
        var next := if cs[0].general then errors else errors + [AIOError("[❌] " + cs[0].addon.name, fetch(cs[0].addon).error)];
        AttemptOutcome(cs[1..], fetch, next);
        var r := Attempt(cs, fetch, errors);
        if r.success {
          var i :| FirstSuccess(cs[1..], fetch, i) && r.data == Some(fetch(cs[1..][i].addon).value) && r.errors == [];
          assert fetch(cs[i + 1].addon).Success?;
          forall j | 0 <= j < i + 1 ensures fetch(cs[j].addon).Failure? {
            if j > 0 {
              assert cs[j] == cs[1..][j - 1];
            }
          }
          assert FirstSuccess(cs, fetch, i + 1);
        }
        if exists i :: 0 <= i < |cs| && fetch(cs[i].addon).Success? {
          var i :| 0 <= i < |cs| && fetch(cs[i].addon).Success?;
          assert cs[1..][i - 1] == cs[i];
        }
        if forall c :: c in cs ==> fetch(c.addon).Failure? {
          assert forall c :: c in cs[1..] ==> c in cs;
          if !cs[0].general {
            assert errors + [AIOError("[❌] " + cs[0].addon.name, fetch(cs[0].addon).error)] + PrefixFailures(cs[1..], fetch) ==
              errors + PrefixFailures(cs, fetch);
          }
        }
      }
    }
  }

  // ---------------------------------------------------------------------------
  // Presets

  /** An addon generated by a preset: it records the preset and takes an instance
      id made of the preset's instance id and four characters of the hash of its
      identifier. */
  function PresetAddon(p: Preset, hash: string -> string, a: Addon): (r: Addon)
    ensures r.presetInstanceId == p.instanceId
    ensures StartsWith(r.instanceId, p.instanceId) && |r.instanceId| <= |p.instanceId| + 4
    ensures r == a.(presetInstanceId := p.instanceId, instanceId := r.instanceId)
  {
    var id := p.instanceId + Take(hash(a.identifier.GetOr("")), 4);
    assert id[..|p.instanceId|] == p.instanceId;
    a.(presetInstanceId := p.instanceId, instanceId := id)
  }

  function PresetAddons(p: Preset, hash: string -> string, generated: seq<Addon>): (r: seq<Addon>)
    ensures |r| == |generated|
    ensures forall i :: 0 <= i < |r| ==> r[i] == PresetAddon(p, hash, generated[i])
  {
    seq(|generated|, i requires 0 <= i < |generated| => PresetAddon(p, hash, generated[i]))
  }

  /** The addons of all enabled presets, preset by preset. */
  function AllPresetAddons(presets: seq<Preset>, generate: Preset -> seq<Addon>, hash: string -> string): (r: seq<Addon>)
    ensures forall a :: a in r ==> exists p :: p in presets && p.enabled && a.presetInstanceId == p.instanceId && StartsWith(a.instanceId, p.instanceId)
  {
    if |presets| == 0 then []
    else
      var init := presets[..|presets| - 1];
      var p := presets[|presets| - 1];
      var before := AllPresetAddons(init, generate, hash);
      assert forall q :: q in init ==> q in presets;
      if p.enabled then before + PresetAddons(p, hash, generate(p)) else before
  }

  lemma AllPresetAddonsStep(presets: seq<Preset>, i: nat, generate: Preset -> seq<Addon>, hash: string -> string)
    requires i < |presets|
    ensures AllPresetAddons(presets[..i + 1], generate, hash)
         == AllPresetAddons(presets[..i], generate, hash)
          + (if presets[i].enabled then PresetAddons(presets[i], hash, generate(presets[i])) else [])
  {
    assert presets[..i + 1][..i] == presets[..i];
  }

  lemma TakeAll<T>(s: seq<T>)
    ensures s[..|s|] == s
  {
  }

  function TooManyAddons(count: nat, maximum: nat): string {
    "Your current configuration requires " + NatToString(count) + " addons, but the maximum allowed is " +
    NatToString(maximum) + ". Please reduce the number of addons, or increase it in the environment variables."
  }

  // ---------------------------------------------------------------------------
  // Loading manifests

  /** The manifest entry of one addon: its manifest, or `None` when it failed. */
  function LoadedEntry(a: Addon, load: Addon -> Result<Manifest, string>): (string, Option<Manifest>) {
    (a.instanceId, match load(a) case Success(m) => Some(m) case Failure(_) => None)
  }

  /** `Object.fromEntries` of the addons' manifest entries. */
  function Loaded(addons: seq<Addon>, load: Addon -> Result<Manifest, string>): (r: Keyed<Option<Manifest>>)
    ensures UniqueKeys(r)
  {
    if |addons| == 0 then []
    else
      var e := LoadedEntry(addons[|addons| - 1], load);
      Assign(Loaded(addons[..|addons| - 1], load), e.0, e.1)
  }

  predicate IdOfSome(addons: seq<Addon>, instanceId: string) {
    exists a :: a in addons && a.instanceId == instanceId
  }

  /** Every addon has an entry, and every entry belongs to an addon. */
  lemma LoadedCoversAddons(addons: seq<Addon>, load: Addon -> Result<Manifest, string>)
    ensures forall a :: a in addons ==> HasKey(Loaded(addons, load), a.instanceId)
    ensures forall j :: 0 <= j < |Loaded(addons, load)| ==> IdOfSome(addons, Loaded(addons, load)[j].0)
  {
    LoadedHasEveryAddon(addons, load);
    LoadedOnlyAddons(addons, load);
  }

  lemma {:induction false} LoadedHasEveryAddon(addons: seq<Addon>, load: Addon -> Result<Manifest, string>)
    ensures forall a :: a in addons ==> HasKey(Loaded(addons, load), a.instanceId)
    decreases |addons|
  {
    if |addons| > 0 {
      var init := addons[..|addons| - 1];
      var last := addons[|addons| - 1];
      LoadedHasEveryAddon(init, load);
      var before := Loaded(init, load);
      var r := Loaded(addons, load);
      assert r == Assign(before, last.instanceId, LoadedEntry(last, load).1);
      forall a | a in addons ensures HasKey(r, a.instanceId) {
        if a.instanceId == last.instanceId {
          var i :| 0 <= i < |r| && r[i] == LoadedEntry(last, load);
        } else {
          assert a in init;
          var i :| 0 <= i < |before| && before[i].0 == a.instanceId;
          assert before[i] in r;
          var k :| 0 <= k < |r| && r[k] == before[i];
        }
      }
    }
  }

  lemma {:induction false} LoadedOnlyAddons(addons: seq<Addon>, load: Addon -> Result<Manifest, string>)
    ensures forall j :: 0 <= j < |Loaded(addons, load)| ==> IdOfSome(addons, Loaded(addons, load)[j].0)
    decreases |addons|
  {
    if |addons| > 0 {
      var init := addons[..|addons| - 1];
      var last := addons[|addons| - 1];
      LoadedOnlyAddons(init, load);
      var before := Loaded(init, load);
      var r := Loaded(addons, load);
      assert r == Assign(before, last.instanceId, LoadedEntry(last, load).1);
      forall j | 0 <= j < |r| ensures IdOfSome(addons, r[j].0) {
        assert r[j] in r;
        if r[j].0 == last.instanceId {
          assert last in addons;
        } else {
          assert r[j] in before;
          var k :| 0 <= k < |before| && before[k] == r[j];
          var a :| a in init && a.instanceId == before[k].0;
          assert a in addons;
        }
      }
    }
  }

  /** The addons whose manifest failed to load, with the reason, in order. */
  function LoadFailures(addons: seq<Addon>, load: Addon -> Result<Manifest, string>): (r: seq<(Addon, string)>)
    ensures |r| <= |addons|
    ensures forall f :: f in r ==> f.0 in addons && load(f.0) == Failure(f.1)
  {
    if |addons| == 0 then []
    else
      var init := addons[..|addons| - 1];
      var before := LoadFailures(init, load);
      var a := addons[|addons| - 1];
      assert forall x :: x in init ==> x in addons;
      match load(a)
      case Failure(msg) => before + [(a, msg)]
      case Success(_) => before
  }

  /** The reason of the first addon whose manifest failed to load. */
  function FirstLoadFailure(addons: seq<Addon>, load: Addon -> Result<Manifest, string>): (r: Option<string>)
    ensures r.None? <==> LoadFailures(addons, load) == []
  {
    if |addons| == 0 then None
    else
      var before := FirstLoadFailure(addons[..|addons| - 1], load);
      if before.Some? then before
      else
        match load(addons[|addons| - 1])
        case Failure(msg) => Some(msg)
        case Success(_) => None
  }

  /** A failure in a prefix of the addons is the first failure of them all. */
  lemma {:induction false} FirstLoadFailureOfPrefix(addons: seq<Addon>, load: Addon -> Result<Manifest, string>, n: nat)
    requires n <= |addons|
    requires FirstLoadFailure(addons[..n], load).Some?
    ensures FirstLoadFailure(addons, load) == FirstLoadFailure(addons[..n], load)
    decreases |addons| - n
  {
    if n < |addons| {
      assert addons[..n + 1][..n] == addons[..n];
      FirstLoadFailureOfPrefix(addons, load, n + 1);
    } else {
      assert addons[..n] == addons;
    }
  }

  // ---------------------------------------------------------------------------
  // Building the combined resources and catalogs

  /** What the manifest loop builds up. */
  datatype Built = Built(resources: seq<Resource>, catalogs: seq<Catalog>, addonCatalogs: seq<Catalog>, supported: Keyed<seq<Resource>>)

  /** One manifest folded in: skipped when it failed to load or its addon is
      unknown; otherwise its admitted resources are merged, its catalogs (when
      the addon takes catalogs) and addon catalogs added with prefixed ids, and
      its resources recorded under its instance id. */
  function AddManifest(b: Built, addons: seq<Addon>, instanceId: string, manifest: Option<Manifest>): (r: Built)
    ensures manifest.None? || FindAddon(addons, instanceId).None? ==> r == b
  {
    match manifest
    case None => b
    case Some(m) =>
      match FindAddon(addons, instanceId)
      case None => b
      case Some(a) =>
        var rs := StrictResources(m);
        Built(
          MergeAll(b.resources, a.resources, rs),
          b.catalogs + (if TakesCatalogs(a.resources) then Prefixed(a.instanceId, m.catalogs) else []),
          b.addonCatalogs + (match m.addonCatalogs case Some(cs) => Prefixed(a.instanceId, cs) case None => []),
          Assign(b.supported, instanceId, rs))
  }

  lemma AddManifestOfAddon(b: Built, addons: seq<Addon>, instanceId: string, m: Manifest, a: Addon)
    requires FindAddon(addons, instanceId) == Some(a)
    ensures AddManifest(b, addons, instanceId, Some(m)) == Built(
      MergeAll(b.resources, a.resources, StrictResources(m)),
      b.catalogs + (if TakesCatalogs(a.resources) then Prefixed(a.instanceId, m.catalogs) else []),
      b.addonCatalogs + (if m.addonCatalogs.Some? then Prefixed(a.instanceId, m.addonCatalogs.value) else []),
      Assign(b.supported, instanceId, StrictResources(m)))
  {
  }

  function AddManifests(b: Built, addons: seq<Addon>, manifests: Keyed<Option<Manifest>>): Built {
    if |manifests| == 0 then b
    else
      var e := manifests[|manifests| - 1];
      AddManifest(AddManifests(b, addons, manifests[..|manifests| - 1]), addons, e.0, e.1)
  }

  /** The invariant of the built state: one resource per name, no empty prefix
      list, one entry per instance id. */
  predicate BuiltValid(b: Built) {
    UniqueNames(b.resources) && PrefixesNormal(b.resources) && UniqueKeys(b.supported)
  }

  lemma {:induction false} AddManifestsValid(b: Built, addons: seq<Addon>, manifests: Keyed<Option<Manifest>>)
    requires BuiltValid(b)
    ensures BuiltValid(AddManifests(b, addons, manifests))
    decreases |manifests|
  {
    if |manifests| > 0 {
      AddManifestsValid(b, addons, manifests[..|manifests| - 1]);
    }
  }

  /** The finishing steps: the error prefix on the meta resource, then the
      catalog modifications when the user has any. */
  function Finish(b: Built, userData: UserData): Built {
    b.(resources := TagErrorPrefix(b.resources),
       catalogs := match userData.catalogModifications case Some(mods) => Modified(b.catalogs, mods) case None => b.catalogs)
  }

  // ---------------------------------------------------------------------------
  // Catalog requests

  /** What a catalog request is forwarded as. */
  datatype CatalogRequest = CatalogRequest(addon: Addon, catalogType: string, catalogId: string, extras: string)

  /** The type the addon is asked for: a modification met under its overriding
      type sends the request under the catalog's own type. */
  function RequestType(userData: UserData, catalogType: string, id: string): string {
    match userData.catalogModifications
    case None => catalogType
    case Some(mods) =>
      match RequestModification(mods, id, catalogType)
      case Some(m) => if m.overrideType.Some? && m.overrideType.value != "" then m.catalogType else catalogType
      case None => catalogType
  }

  /** A catalog request: its id names the addon before the first dot and the
      catalog after it; an unknown addon is an error. */
  function CatalogRequestFor(addons: seq<Addon>, userData: UserData, schemas: CatalogExtrasModel.Schemas,
                             catalogType: string, id: string, extras: Option<string>): Result<CatalogRequest, AIOError>
  {
    var parts := Split(id, '.');
    match FindAddon(addons, parts[0])
    case None => Failure(AIOError("Addon " + parts[0] + " not found. Try reinstalling the addon.", "Addon not found"))
    case Some(a) => Success(CatalogRequest(a, RequestType(userData, catalogType, id), Join(parts[1..], "."), ForwardedExtras(schemas, extras)))
  }

  /** The request goes to the addon named before the first dot, or fails naming it. */
  lemma CatalogRequestAddon(addons: seq<Addon>, userData: UserData, schemas: CatalogExtrasModel.Schemas,
                            catalogType: string, id: string, extras: Option<string>)
    ensures var r := CatalogRequestFor(addons, userData, schemas, catalogType, id, extras);
      (r.Success? <==> exists a :: a in addons && a.instanceId == Split(id, '.')[0]) &&
      (r.Success? ==>
        r.value.addon in addons && (NoChar(id, '.') || r.value.addon.instanceId + "." + r.value.catalogId == id))
  {
    CatalogIdSplits(id);
  }

  /** A request under a modification's (non-empty) overriding type is sent under
      the catalog's own type. */
  lemma OverriddenTypeIsRestored(userData: UserData, catalogType: string, id: string, m: Modification)
    requires userData.catalogModifications.Some?
    requires RequestModification(userData.catalogModifications.value, id, catalogType) == Some(m)
    requires m.overrideType.Some? && m.overrideType.value != ""
    ensures RequestType(userData, catalogType, id) == m.catalogType
    ensures m.id == id
  {
  }

  /** The modification addressed by a catalog request, by id and by its type or
      the type it overrides to. */
  function RequestModification(mods: seq<Modification>, id: string, catalogType: string): (r: Option<Modification>)
    ensures r.Some? ==> (r.value in mods && r.value.id == id &&
      (r.value.catalogType == catalogType || r.value.overrideType == Some(catalogType)))
  {
    if |mods| == 0 then None
    else if mods[0].id == id && (mods[0].catalogType == catalogType || mods[0].overrideType == Some(catalogType)) then Some(mods[0])
    else RequestModification(mods[1..], id, catalogType)
  }

  /** The extras forwarded: a "None" genre is dropped. */
  function ForwardedExtras(schemas: CatalogExtrasModel.Schemas, text: Option<string>): string {
    var parsed := CatalogExtrasModel.ParseExtras(schemas, text);
    if CatalogExtrasModel.Get(parsed, "genre") == Some(CatalogExtrasModel.Text("None")) then
      CatalogExtrasModel.Serialise(CatalogExtrasModel.Put(parsed, "genre", None))
    else CatalogExtrasModel.Serialise(parsed)
  }

  /** A "None" genre never reaches the addon: the forwarded extras are the parsed
      ones without the genre. */
  lemma NoneGenreIsDropped(schemas: CatalogExtrasModel.Schemas, text: Option<string>)
    requires CatalogExtrasModel.Get(CatalogExtrasModel.ParseExtras(schemas, text), "genre") == Some(CatalogExtrasModel.Text("None"))
    ensures ForwardedExtras(schemas, text) ==
      Join(CatalogExtrasModel.Rendered(CatalogExtrasModel.Without(CatalogExtrasModel.ParseExtras(schemas, text), "genre")), "&")
  {
    var parsed := CatalogExtrasModel.ParseExtras(schemas, text);
    CatalogExtrasModel.PutUndefinedDropsKey(parsed, "genre");
  }

  /** The addon part of a catalog id (before the first dot) holds no dot, and the
      addon part, a dot and the catalog part give the id back when it has a dot. */
  lemma CatalogIdSplits(id: string)
    ensures NoChar(Split(id, '.')[0], '.')
    ensures !NoChar(id, '.') ==>
      |Split(id, '.')| >= 2 && Split(id, '.')[0] + "." + Join(Split(id, '.')[1..], ".") == id
  {
    JoinSplit(id, '.');
    SplitPiecesNoSep(id, '.');
  }

  // ---------------------------------------------------------------------------
  // The orchestrator

  class AIOStreams {
    var userData: UserData
    var skipFailedAddons: bool
    var isInitialised: bool
    var addons: seq<Addon>
    var manifests: Keyed<Option<Manifest>>
    var supportedResources: Keyed<seq<Resource>>
    var finalResources: seq<Resource>
    var finalCatalogs: seq<Catalog>
    var finalAddonCatalogs: seq<Catalog>
    var addonInitialisationErrors: seq<(Addon, string)>

    constructor(userData: UserData, skipFailedAddons: bool)
      ensures this.userData == userData && this.skipFailedAddons == skipFailedAddons && !isInitialised
      ensures addons == [] && manifests == [] && supportedResources == []
      ensures finalResources == [] && finalCatalogs == [] && finalAddonCatalogs == [] && addonInitialisationErrors == []
      ensures Valid()
    {
      this.userData := userData;
      this.skipFailedAddons := skipFailedAddons;
      isInitialised := false;
      addons := [];
      manifests := [];
      supportedResources := [];
      finalResources := [];
      finalCatalogs := [];
      finalAddonCatalogs := [];
      addonInitialisationErrors := [];
    }

    /** What the manifest loop has built so far. */
    function State(): Built
      reads this
    {
      Built(finalResources, finalCatalogs, finalAddonCatalogs, supportedResources)
    }

    predicate Valid()
      reads this
    {
      BuiltValid(State())
    }

    /** `getAddon`: the first addon with this instance id. */
    function GetAddon(instanceId: string): (r: Option<Addon>)
      reads this
      ensures r.Some? ==> r.value in addons && r.value.instanceId == instanceId
      ensures r.None? ==> forall a :: a in addons ==> a.instanceId != instanceId
    {
      FindAddon(addons, instanceId)
    }

    /** The addons asked for streams, in the order of the resource table. */
    method SelectStreamAddons(streamType: string, id: string) returns (r: seq<Addon>)
      ensures r == StreamAddons(supportedResources, addons, streamType, id)
    {
      r := [];
      for i := 0 to |supportedResources|
        invariant r == StreamAddons(supportedResources[..i], addons, streamType, id)
      {
        assert supportedResources[..i + 1][..i] == supportedResources[..i];
        var e := supportedResources[i];
        if AnyServesStream(e.1, streamType, id) {
          var a := GetAddon(e.0);
          if a.Some? {
            r := r + [a.value];
          }
        }
      }
      assert supportedResources[..|supportedResources|] == supportedResources;
    }

    /** `getStreams`: the answer, and whether the next episode is to be pre-cached. */
    method GetStreams(id: string, streamType: string, preCaching: bool, stages: Stages, cache: map<string, seq<ParsedStream>>)
      returns (resp: StreamsResponse, precache: bool)
      ensures resp == StreamsFor(supportedResources, addons, addonInitialisationErrors, userData, stages, streamType, id)
      ensures precache == ShouldPrecache(userData, preCaching, cache, streamType, id)
    {
      var supported := SelectStreamAddons(streamType, id);
      var fetched := stages.fetch(supported, streamType, id);
      var errors := fetched.errors + InitErrors(stages, addonInitialisationErrors);
      var deduplicated := stages.deduplicate(fetched.streams);
      var sorted := stages.sort(deduplicated, SortKind(streamType, id));
      sorted := DropHdrDvAll(sorted);
      var limited := stages.limit(sorted);
      var postFiltered := stages.applyExpressions(limited);
      var proxified := stages.proxify(postFiltered);
      var finalStreams := stages.modifyStreams(proxified);
      precache := false;
      if userData.precacheNextEpisode && !preCaching {
        var cacheKey := PrecacheKey(streamType, id, userData.uuid);
        precache := cacheKey !in cache;
      }
      if userData.externalDownloads {
        finalStreams := AddExternalDownloads(finalStreams, stages.downloadable);
      }
      resp := StreamsResponse(true, finalStreams, fetched.statistics, errors);
    }

    /** The cache after the next episode's answer: it records the streams when
        the chosen stream's url answered. */
    static method RecordPrecache(cache: map<string, seq<ParsedStream>>, key: string, nextResponse: StreamsResponse,
                                 alwaysPrecache: bool, ping: (Addon, string) -> bool)
      returns (newCache: map<string, seq<ParsedStream>>)
      ensures newCache == CacheAfterPrecache(cache, key, nextResponse, alwaysPrecache, ping)
      ensures newCache != cache ==> key in newCache
    {
      newCache := cache;
      if nextResponse.success {
        var target := PrecacheTarget(nextResponse.streams, alwaysPrecache);
        if target.Some? && ping(target.value.addon, target.value.url.value) {
          newCache := cache[key := nextResponse.streams];
        }
      }
    }

    /** `precacheNextEpisode`: the user's configuration loses its uncached filter
        and groups, the next episode's streams are requested, and the cache records
        the attempt when the chosen stream's url answered. */
    method PrecacheNextEpisode(streamType: string, id: string, md: Option<Metadata>, stages: Stages,
                               ping: (Addon, string) -> bool, cache: map<string, seq<ParsedStream>>)
      returns (newCache: map<string, seq<ParsedStream>>)
      modifies this`userData
      ensures NextEpisodeId(id, md).None? ==> userData == old(userData) && newCache == cache
      ensures NextEpisodeId(id, md).Some? ==>
        userData == ForPrecaching(old(userData)) &&
        newCache == CacheAfterPrecache(cache, PrecacheKey(streamType, id, userData.uuid),
          StreamsFor(supportedResources, addons, addonInitialisationErrors, userData, stages, streamType, NextEpisodeId(id, md).value),
          userData.alwaysPrecache, ping)
      ensures newCache != cache ==> !ShouldPrecache(userData, false, newCache, streamType, id)
      ensures State() == old(State())
    {
      var next := NextEpisodeId(id, md);
      if next.None? {
        return cache;
      }
      userData := ForPrecaching(userData);
      var nextResponse, _ := GetStreams(next.value, streamType, true, stages, cache);
      newCache := RecordPrecache(cache, PrecacheKey(streamType, id, userData.uuid), nextResponse, userData.alwaysPrecache, ping);
    }

    /** The meta candidates: first by id prefix, then by type alone. */
    method SelectMetaCandidates(metaType: string, id: string) returns (cs: seq<Candidate>)
      ensures cs == MetaCandidates(supportedResources, addons, metaType, id)
    {
      cs := SelectPrefixCandidates(metaType, id);
      cs := AddGeneralCandidates(metaType, cs);
    }

    /** The first pass over the resource table. */
    method SelectPrefixCandidates(metaType: string, id: string) returns (cs: seq<Candidate>)
      ensures cs == PrefixCandidates(supportedResources, addons, metaType, id)
    {
      cs := [];
      for i := 0 to |supportedResources|
        invariant cs == PrefixCandidates(supportedResources[..i], addons, metaType, id)
      {
        PrefixCandidatesStep(supportedResources, i, addons, metaType, id);
        var e := supportedResources[i];
        if AnyServesByPrefix(e.1, metaType, id) {
          var a := GetAddon(e.0);
          if a.Some? {
            cs := cs + [Candidate(e.0, a.value, false)];
          }
        }
      }
      TakeAll(supportedResources);
    }

    /** The second pass over the resource table, after the candidates `prefix`. */
    method AddGeneralCandidates(metaType: string, prefix: seq<Candidate>) returns (cs: seq<Candidate>)
      ensures cs == GeneralCandidates(supportedResources, addons, metaType, prefix)
    {
      cs := prefix;
      for i := 0 to |supportedResources|
        invariant cs == GeneralCandidates(supportedResources[..i], addons, metaType, prefix)
      {
        GeneralCandidatesStep(supportedResources, i, addons, metaType, prefix);
        var e := supportedResources[i];
        if !Taken(cs, e.0) && AnyServesGenerally(e.1, metaType) {
          var a := GetAddon(e.0);
          if a.Some? {
            cs := cs + [Candidate(e.0, a.value, true)];
          }
        }
      }
      assert supportedResources[..|supportedResources|] == supportedResources;
    }

    /** `getMeta`: the candidates are tried in order until one answers. */
    method GetMeta<M>(metaType: string, id: string, fetch: Addon -> Result<M, string>) returns (r: MetaResponse<M>)
      ensures r == Attempt(MetaCandidates(supportedResources, addons, metaType, id), fetch, [])
    {
      var cs := SelectMetaCandidates(metaType, id);
      if |cs| == 0 {
        return MetaResponse(false, None, []);
      }
      var errors: seq<AIOError> := [];
      for i := 0 to |cs|
        invariant Attempt(cs, fetch, []) == Attempt(cs[i..], fetch, errors)
      {
        assert cs[i..][1..] == cs[i + 1..];
        match fetch(cs[i].addon) {
          case Success(m) =>
            return MetaResponse(true, Some(m), []);
          case Failure(msg) =>
            if !cs[i].general {
              errors := errors + [AIOError("[❌] " + cs[i].addon.name, msg)];
            }
        }
      }
      r := MetaResponse(false, None, errors);
    }

    /** `applyPresets`: the addons of the enabled presets are appended, and too
        many addons in total is an error. */
    method ApplyPresets(generate: Preset -> seq<Addon>, hash: string -> string, maxAddons: nat) returns (r: Result<(), string>)
      modifies this`addons
      ensures addons == old(addons) + (match userData.presets case Some(ps) => AllPresetAddons(ps, generate, hash) case None => [])
      ensures r == (if userData.presets.Some? && |addons| > maxAddons then Failure(TooManyAddons(|addons|, maxAddons)) else Success(()))
      ensures State() == old(State())
    {
      if userData.presets.None? {
        return Success(());
      }
      var presets := userData.presets.value;
      for i := 0 to |presets|
        invariant addons == old(addons) + AllPresetAddons(presets[..i], generate, hash)
      {
        AllPresetAddonsStep(presets, i, generate, hash);
        var p := presets[i];
        if p.enabled {
          var generated := generate(p);
          AppendAssoc(old(addons), AllPresetAddons(presets[..i], generate, hash), PresetAddons(p, hash, generated));
          addons := addons + PresetAddons(p, hash, generated);
        }
      }
      assert presets[..|presets|] == presets;
      if |addons| > maxAddons {
        return Failure(TooManyAddons(|addons|, maxAddons));
      }
      r := Success(());
    }

    /** `fetchManifests`: one entry per addon; a failed addon is recorded and
        skipped, or, when failures are not skipped, the first failure is the error. */
    method FetchManifests(load: Addon -> Result<Manifest, string>) returns (r: Result<(), string>)
      modifies this`manifests, this`addonInitialisationErrors
      ensures r == (if !skipFailedAddons && FirstLoadFailure(addons, load).Some? then Failure(FirstLoadFailure(addons, load).value) else Success(()))
      ensures r.Success? ==> manifests == Loaded(addons, load)
      ensures r.Success? ==> addonInitialisationErrors == old(addonInitialisationErrors) + LoadFailures(addons, load)
      ensures r.Failure? ==> manifests == old(manifests) && addonInitialisationErrors == old(addonInitialisationErrors)
      ensures State() == old(State())
    {
      var entries: Keyed<Option<Manifest>> := [];
      var failures: seq<(Addon, string)> := [];
      for i := 0 to |addons|
        invariant entries == Loaded(addons[..i], load)
        invariant failures == LoadFailures(addons[..i], load)
        invariant !skipFailedAddons ==> FirstLoadFailure(addons[..i], load).None?
      {
        assert addons[..i + 1][..i] == addons[..i];
        var a := addons[i];
        match load(a) {
          case Success(m) =>
            entries := Assign(entries, a.instanceId, Some(m));
          case Failure(msg) =>
            if !skipFailedAddons {
              FirstLoadFailureOfPrefix(addons, load, i + 1);
              return Failure(msg);
            }
            failures := failures + [(a, msg)];
            entries := Assign(entries, a.instanceId, None);
        }
      }
      assert addons[..|addons|] == addons;
      manifests := entries;
      addonInitialisationErrors := addonInitialisationErrors + failures;
      r := Success(());
    }

    /** One resource merged into the combined resources. */
    method MergeResource(r: Resource)
      modifies this`finalResources
      ensures finalResources == Merged(old(finalResources), r)
    {
      var i := 0;
      while i < |finalResources| && finalResources[i].name != r.name
        invariant 0 <= i <= |finalResources|
        invariant forall j :: 0 <= j < i ==> finalResources[j].name != r.name
      {
        i := i + 1;
      }
      if i < |finalResources| {
        finalResources := finalResources[i := Combined(finalResources[i], r)];
      } else {
        finalResources := finalResources + [Fresh(r)];
      }
    }

    /** The resources of one manifest merged in, skipping those the addon's
        restriction excludes. */
    method MergeResources(restriction: Option<seq<string>>, rs: seq<Resource>)
      modifies this`finalResources
      ensures finalResources == MergeAll(old(finalResources), restriction, rs)
    {
      for i := 0 to |rs|
        invariant finalResources == MergeAll(old(finalResources), restriction, rs[..i])
      {
        MergeAllStep(old(finalResources), restriction, rs, i);
        if Admits(restriction, rs[i].name) {
          MergeResource(rs[i]);
        }
      }
      assert rs[..|rs|] == rs;
    }

    /** One manifest folded into the combined resources and catalogs. */
    method AddManifestEntry(instanceId: string, manifest: Option<Manifest>)
      modifies this`finalResources, this`finalCatalogs, this`finalAddonCatalogs, this`supportedResources
      ensures State() == AddManifest(old(State()), addons, instanceId, manifest)
    {
      if manifest.None? {
        return;
      }
      var m := manifest.value;
      var addonResources := StrictResources(m);
      var addon := GetAddon(instanceId);
      if addon.None? {
        return;
      }
      var a := addon.value;
      AddManifestOfAddon(State(), addons, instanceId, m, a);
      MergeResources(a.resources, addonResources);
      if TakesCatalogs(a.resources) {
        finalCatalogs := finalCatalogs + Prefixed(a.instanceId, m.catalogs);
      }
      if m.addonCatalogs.Some? {
        finalAddonCatalogs := finalAddonCatalogs + Prefixed(a.instanceId, m.addonCatalogs.value);
      }
      supportedResources := Assign(supportedResources, instanceId, addonResources);
    }

    /** `fetchResources`: every loaded manifest folded in, then the meta resource
        tagged and the user's catalog modifications applied. */
    method FetchResources()
      modifies this`finalResources, this`finalCatalogs, this`finalAddonCatalogs, this`supportedResources
      ensures State() == Finish(AddManifests(old(State()), addons, manifests), userData)
      ensures old(Valid()) ==> Valid()
    {
      for i := 0 to |manifests|
        invariant State() == AddManifests(old(State()), addons, manifests[..i])
      {
        assert manifests[..i + 1][..i] == manifests[..i];
        AddManifestEntry(manifests[i].0, manifests[i].1);
      }
      assert manifests[..|manifests|] == manifests;
      ghost var built := State();
      if old(Valid()) {
        AddManifestsValid(old(State()), addons, manifests);
        TagErrorPrefixValid(built.resources);
      }
      finalResources := TagErrorPrefix(finalResources);
      if userData.catalogModifications.Some? {
        finalCatalogs := Modified(finalCatalogs, userData.catalogModifications.value);
      }
    }

    /** The catalog request a `getCatalog` call forwards, or the not-found error. */
    method PrepareCatalogRequest(catalogType: string, id: string, schemas: CatalogExtrasModel.Schemas, extras: Option<string>)
      returns (r: Result<CatalogRequest, AIOError>)
      ensures r == CatalogRequestFor(addons, userData, schemas, catalogType, id, extras)
    {
      var parts := Split(id, '.');
      var addonInstanceId := parts[0];
      var addon := GetAddon(addonInstanceId);
      if addon.None? {
        return Failure(AIOError("Addon " + addonInstanceId + " not found. Try reinstalling the addon.", "Addon not found"));
      }
      var actualCatalogId := Join(parts[1..], ".");
      var requestType := catalogType;
      if userData.catalogModifications.Some? {
        var modification := RequestModification(userData.catalogModifications.value, id, catalogType);
        if modification.Some? && modification.value.overrideType.Some? && modification.value.overrideType.value != "" {
          requestType := modification.value.catalogType;
        }
      }
      var parsedExtras := new CatalogExtrasModel.CatalogExtras(schemas, extras);
      if parsedExtras.Genre() == Some(CatalogExtrasModel.Text("None")) {
        parsedExtras.SetGenre(None);
      }
      var extrasString := parsedExtras.ToString();
      r := Success(CatalogRequest(addon.value, requestType, actualCatalogId, extrasString));
    }

    /** `initialise`: presets, manifests, then resources, once. */
    method Initialise(generate: Preset -> seq<Addon>, hash: string -> string, maxAddons: nat,
                      load: Addon -> Result<Manifest, string>) returns (r: Result<(), string>)
      requires Valid()
      modifies this
      ensures old(isInitialised) ==> r.Success? && unchanged(this)
      ensures !old(isInitialised) ==> FirstInitialisation(r, generate, hash, maxAddons, load)
      ensures r.Success? <==> isInitialised
      ensures Valid()
    {
      if isInitialised {
        return Success(());
      }
      r := InitialiseOnce(generate, hash, maxAddons, load);
    }

    /** What the first call of `initialise` does. The preset addons are appended
        to the addons. The call fails with too many addons, or, unless failed
        addons are skipped, with the first manifest that cannot be loaded; the
        built state is then as it was. Otherwise the loaded manifests and the
        load errors are recorded and the resources are built from them. */
    twostate predicate FirstInitialisation(new r: Result<(), string>, generate: Preset -> seq<Addon>, hash: string -> string,
                                           maxAddons: nat, load: Addon -> Result<Manifest, string>)
      reads this
    {
      && userData == old(userData) && skipFailedAddons == old(skipFailedAddons)
      && addons == old(addons) + (match userData.presets case Some(ps) => AllPresetAddons(ps, generate, hash) case None => [])
      && r == (if userData.presets.Some? && |addons| > maxAddons then Failure(TooManyAddons(|addons|, maxAddons))
               else if !skipFailedAddons && FirstLoadFailure(addons, load).Some? then Failure(FirstLoadFailure(addons, load).value)
               else Success(()))
      && (r.Success? ==>
            && manifests == Loaded(addons, load)
            && addonInitialisationErrors == old(addonInitialisationErrors) + LoadFailures(addons, load)
            && State() == Finish(AddManifests(old(State()), addons, manifests), userData))
      && (r.Failure? ==> State() == old(State()))
      && (r.Success? <==> isInitialised)
    }

    /** The first call of `initialise`. */
    method InitialiseOnce(generate: Preset -> seq<Addon>, hash: string -> string, maxAddons: nat,
                          load: Addon -> Result<Manifest, string>) returns (r: Result<(), string>)
      requires Valid() && !isInitialised
      modifies this
      ensures FirstInitialisation(r, generate, hash, maxAddons, load)
      ensures Valid()
    {
      r := ApplyPresets(generate, hash, maxAddons);
      if r.Failure? {
        return;
      }
      r := LoadAddons(load);
    }

    /** The part of the first call after the presets: the manifests, then the
        resources built from them. */
    method LoadAddons(load: Addon -> Result<Manifest, string>) returns (r: Result<(), string>)
      requires Valid() && !isInitialised
      modifies this`manifests, this`addonInitialisationErrors, this`finalResources, this`finalCatalogs,
               this`finalAddonCatalogs, this`supportedResources, this`isInitialised
      ensures r == (if !skipFailedAddons && FirstLoadFailure(addons, load).Some? then Failure(FirstLoadFailure(addons, load).value)
                    else Success(()))
      ensures r.Success? ==>
        && manifests == Loaded(addons, load)
        && addonInitialisationErrors == old(addonInitialisationErrors) + LoadFailures(addons, load)
        && State() == Finish(AddManifests(old(State()), addons, manifests), userData)
      ensures r.Failure? ==> State() == old(State())
      ensures r.Success? <==> isInitialised
      ensures Valid()
    {
      r := FetchManifests(load);
      if r.Failure? {
        return;
      }
      FetchResources();
      isInitialised := true;
    }
  }

  /** The error prefix keeps the invariant of the combined resources. */
  lemma TagErrorPrefixValid(rs: seq<Resource>)
    requires UniqueNames(rs) && PrefixesNormal(rs)
    ensures UniqueNames(TagErrorPrefix(rs)) && PrefixesNormal(TagErrorPrefix(rs))
  {
    var r := TagErrorPrefix(rs);
    forall i | 0 <= i < |rs| ensures r[i].idPrefixes.None? || |r[i].idPrefixes.value| > 0 {
      if Some(i) != NameIndex(rs, "meta") {
        assert r[i] == rs[i];
      }
    }
  }
}
