/** Routing streams through the user's proxy: which streams are eligible, and
    how the proxied URLs the proxy service returns are written back, with the
    streams it failed on removed. */
module Proxifier {
  import opened Wrappers
  import opened Types

  /** The user's proxy settings (the fields the proxifier reads). */
  datatype ProxyConfig = ProxyConfig(
    enabled: bool,
    /** preset instance ids of the addons to proxy; absent or empty means all */
    proxiedAddons: Option<seq<string>>,
    /** service ids to proxy, `none` for streams without a service; absent or empty means all */
    proxiedServices: Option<seq<string>>)

  predicate Enabled(proxy: Option<ProxyConfig>) {
    proxy.Some? && proxy.value.enabled
  }

  /** An absent or empty list, or one that names the entry. */
  predicate AllowedBy(list: Option<seq<string>>, x: string) {
    list.None? || |list.value| == 0 || x in list.value
  }

  /** The service id a stream is filed under for the service list. */
  function ServiceKey(s: ParsedStream): string {
    if s.service.Some? then s.service.value.id else "none"
  }

  /** `shouldProxyStream`. */
  predicate ShouldProxyStream(proxy: Option<ProxyConfig>, s: ParsedStream) {
    Present(s.url) && Enabled(proxy)
    && AllowedBy(proxy.value.proxiedAddons, s.addon.presetInstanceId)
    && AllowedBy(proxy.value.proxiedServices, ServiceKey(s))
  }

  /** The filter `proxify` applies before asking the proxy for URLs. */
  predicate Eligible(proxy: Option<ProxyConfig>, s: ParsedStream) {
    Present(s.url) && ShouldProxyStream(proxy, s)
  }

  /** `r` lists, in increasing order, exactly the indices of the eligible streams. */
  predicate EligibleList(proxy: Option<ProxyConfig>, streams: seq<ParsedStream>, r: seq<nat>) {
    && (forall j :: 0 <= j < |r| ==> r[j] < |streams| && Eligible(proxy, streams[r[j]]))
    && (forall j, k :: 0 <= j < k < |r| ==> r[j] < r[k])
    && (forall k :: 0 <= k < |streams| && Eligible(proxy, streams[k]) ==> k in r)
  }

  lemma ExtendEligibleList(proxy: Option<ProxyConfig>, streams: seq<ParsedStream>, e: seq<nat>)
    requires |streams| > 0
    requires EligibleList(proxy, streams[..|streams| - 1], e)
    ensures Eligible(proxy, streams[|streams| - 1]) ==> EligibleList(proxy, streams, e + [|streams| - 1])
    ensures !Eligible(proxy, streams[|streams| - 1]) ==> EligibleList(proxy, streams, e)
  {
    var n := |streams| - 1;
    assert forall k :: 0 <= k < n ==> streams[..n][k] == streams[k];
  }

  /** The indices of the eligible streams, in increasing order. */
  function EligibleIndices(proxy: Option<ProxyConfig>, streams: seq<ParsedStream>): (r: seq<nat>)
    ensures EligibleList(proxy, streams, r)
  {
    if |streams| == 0 then []
    else
      var n := |streams| - 1;
      var e := EligibleIndices(proxy, streams[..n]);
      ExtendEligibleList(proxy, streams, e);
      if Eligible(proxy, streams[n]) then e + [n] else e
  }

  /** The position of stream `k` among the eligible streams: the number of
      eligible streams before it. */
  function Rank(proxy: Option<ProxyConfig>, streams: seq<ParsedStream>, k: nat): nat
    requires k <= |streams|
  {
    |EligibleIndices(proxy, streams[..k])|
  }

  /** `proxiedUrls?.[i]`, when it is a non-empty text. */
  function UrlAt(urls: Option<seq<string>>, i: nat): Option<string> {
    if urls.Some? && i < |urls.value| && urls.value[i] != "" then Some(urls.value[i]) else None
  }

  /** What becomes of stream `k`: an eligible stream takes the URL at its
      position and is marked proxied, or is dropped when there is none; any
      other stream stays as it is. */
  function Outcome(proxy: Option<ProxyConfig>, streams: seq<ParsedStream>, urls: Option<seq<string>>, k: nat): Option<ParsedStream>
    requires k < |streams|
  {
    if Eligible(proxy, streams[k]) then
      match UrlAt(urls, Rank(proxy, streams, k))
      case Some(u) => Some(streams[k].(url := Some(u), proxied := Some(true)))
      case None => None
    else Some(streams[k])
  }

  /** The outcomes of the first `n` streams, the dropped ones left out, in order. */
  function KeptUpTo(proxy: Option<ProxyConfig>, streams: seq<ParsedStream>, urls: Option<seq<string>>, n: nat): (r: seq<ParsedStream>)
    requires n <= |streams|
    ensures |r| <= n
  {
    if n == 0 then []
    else
      KeptUpTo(proxy, streams, urls, n - 1)
      + match Outcome(proxy, streams, urls, n - 1) case Some(x) => [x] case None => []
  }

  /** The result of `proxify`. */
  function Proxified(proxy: Option<ProxyConfig>, streams: seq<ParsedStream>, urls: Option<seq<string>>): seq<ParsedStream> {
    KeptUpTo(proxy, streams, urls, |streams|)
  }

  // ---------------------------------------------------------------------------
  // Lemmas about the eligible indices

  lemma EligibleStep(proxy: Option<ProxyConfig>, streams: seq<ParsedStream>, k: nat)
    requires k < |streams|
    ensures EligibleIndices(proxy, streams[..k + 1])
         == EligibleIndices(proxy, streams[..k]) + (if Eligible(proxy, streams[k]) then [k] else [])
  {
    assert streams[..k + 1][..k] == streams[..k];
  }

  /** The eligible indices of a prefix are a prefix of the eligible indices. */
  lemma {:induction false} EligiblePrefix(proxy: Option<ProxyConfig>, streams: seq<ParsedStream>, n: nat)
    requires n <= |streams|
    ensures var p := EligibleIndices(proxy, streams[..n]); var e := EligibleIndices(proxy, streams);
      |p| <= |e| && e[..|p|] == p
    decreases |streams| - n
  {
    if n < |streams| {
      EligiblePrefix(proxy, streams, n + 1);
      EligibleStep(proxy, streams, n);
      var p := EligibleIndices(proxy, streams[..n]);
      var q := EligibleIndices(proxy, streams[..n + 1]);
      var e := EligibleIndices(proxy, streams);
      assert |q| <= |e| && e[..|q|] == q;
      assert q[..|p|] == p;
      assert e[..|p|] == e[..|q|][..|p|];
    } else {
      assert streams[..n] == streams;
    }
  }

  /** An eligible stream's rank is its position in the eligible indices. */
  lemma EligibleAtRank(proxy: Option<ProxyConfig>, streams: seq<ParsedStream>, k: nat)
    requires k < |streams| && Eligible(proxy, streams[k])
    ensures Rank(proxy, streams, k) < |EligibleIndices(proxy, streams)|
    ensures EligibleIndices(proxy, streams)[Rank(proxy, streams, k)] == k
  {
    EligibleStep(proxy, streams, k);
    EligiblePrefix(proxy, streams, k + 1);
    var p := EligibleIndices(proxy, streams[..k + 1]);
    var e := EligibleIndices(proxy, streams);
    assert p[|p| - 1] == k;
    assert e[|p| - 1] == p[|p| - 1];
  }

  /** The `i`-th eligible index has rank `i`. */
  lemma RankOfEligible(proxy: Option<ProxyConfig>, streams: seq<ParsedStream>, i: nat)
    requires i < |EligibleIndices(proxy, streams)|
    ensures Rank(proxy, streams, EligibleIndices(proxy, streams)[i]) == i
  {
    var e := EligibleIndices(proxy, streams);
    var k := e[i];
    EligibleAtRank(proxy, streams, k);
  }

  /** When every stream is kept unchanged, the result is the input. */
  lemma {:induction false} AllKept(proxy: Option<ProxyConfig>, streams: seq<ParsedStream>, urls: Option<seq<string>>,
                                   xs: seq<ParsedStream>, n: nat)
    requires n <= |streams| && n <= |xs|
    requires forall k :: 0 <= k < n ==> Outcome(proxy, streams, urls, k) == Some(xs[k])
    ensures KeptUpTo(proxy, streams, urls, n) == xs[..n]
  {
    if n > 0 {
      AllKept(proxy, streams, urls, xs, n - 1);
      assert xs[..n] == xs[..n - 1] + [xs[n - 1]];
    }
  }

  // ---------------------------------------------------------------------------
  // Properties of proxify

  /** With the proxy disabled or absent, the streams come back unchanged. */
  lemma DisabledIsIdentity(proxy: Option<ProxyConfig>, streams: seq<ParsedStream>, urls: Option<seq<string>>)
    requires !Enabled(proxy)
    ensures Proxified(proxy, streams, urls) == streams
  {
    AllKept(proxy, streams, urls, streams, |streams|);
    assert streams[..|streams|] == streams;
  }

  /** The `i`-th URL goes to the `i`-th eligible stream, which is marked proxied;
      an eligible stream without a URL is dropped. */
  lemma UrlGoesToEligibleStream(proxy: Option<ProxyConfig>, streams: seq<ParsedStream>, urls: Option<seq<string>>, i: nat)
    requires i < |EligibleIndices(proxy, streams)|
    ensures var k := EligibleIndices(proxy, streams)[i];
      Outcome(proxy, streams, urls, k)
        == match UrlAt(urls, i)
           case Some(u) => Some(streams[k].(url := Some(u), proxied := Some(true)))
           case None => None
  {
    RankOfEligible(proxy, streams, i);
  }

  /** Streams that are not eligible pass through untouched. */
  lemma IneligibleUntouched(proxy: Option<ProxyConfig>, streams: seq<ParsedStream>, urls: Option<seq<string>>, k: nat)
    requires k < |streams| && !Eligible(proxy, streams[k])
    ensures Outcome(proxy, streams, urls, k) == Some(streams[k])
  {
  }

  /** The result is never longer than the input. */
  lemma ProxifiedNeverGrows(proxy: Option<ProxyConfig>, streams: seq<ParsedStream>, urls: Option<seq<string>>)
    ensures |Proxified(proxy, streams, urls)| <= |streams|
  {
  }

  // ---------------------------------------------------------------------------
  // proxify

  /** The state after the URLs are written back: every kept stream in its
      final form, and the indices of the dropped ones. */
  predicate Settled(proxy: Option<ProxyConfig>, streams: seq<ParsedStream>, urls: Option<seq<string>>,
                    out: seq<ParsedStream>, remove: set<nat>) {
    |out| == |streams|
    && forall k :: 0 <= k < |streams| ==>
         (k in remove <==> Outcome(proxy, streams, urls, k).None?)
         && (Outcome(proxy, streams, urls, k).Some? ==> out[k] == Outcome(proxy, streams, urls, k).value)
  }

  /** The indices of the streams to proxy, in order. */
  method CollectEligible(proxy: Option<ProxyConfig>, streams: seq<ParsedStream>) returns (toProxy: seq<nat>)
    ensures toProxy == EligibleIndices(proxy, streams)
  {
    toProxy := [];
    for k := 0 to |streams|
      invariant toProxy == EligibleIndices(proxy, streams[..k])
    {
      EligibleStep(proxy, streams, k);
      if Present(streams[k].url) && ShouldProxyStream(proxy, streams[k]) {
        toProxy := toProxy + [k];
      }
    }
    assert streams[..|streams|] == streams;
  }

  /** Stream `k` once the first `i` URLs are written back. */
  function WrittenAt(proxy: Option<ProxyConfig>, streams: seq<ParsedStream>, urls: Option<seq<string>>, i: nat, k: nat): ParsedStream
    requires k < |streams|
  {
    if Eligible(proxy, streams[k]) && Rank(proxy, streams, k) < i && UrlAt(urls, Rank(proxy, streams, k)).Some?
    then streams[k].(url := UrlAt(urls, Rank(proxy, streams, k)), proxied := Some(true))
    else streams[k]
  }

  /** Stream `k` is noted for removal once the first `i` URLs are written back. */
  predicate DroppedAt(proxy: Option<ProxyConfig>, streams: seq<ParsedStream>, urls: Option<seq<string>>, i: nat, k: nat) {
    k < |streams| && Eligible(proxy, streams[k]) && Rank(proxy, streams, k) < i && UrlAt(urls, Rank(proxy, streams, k)).None?
  }

  /** Writing back the `i`-th URL leaves every other stream as it was. */
  lemma WriteStepElsewhere(proxy: Option<ProxyConfig>, streams: seq<ParsedStream>, urls: Option<seq<string>>, i: nat, k: nat)
    requires i < |EligibleIndices(proxy, streams)| && k < |streams|
    requires k != EligibleIndices(proxy, streams)[i]
    ensures WrittenAt(proxy, streams, urls, i + 1, k) == WrittenAt(proxy, streams, urls, i, k)
    ensures DroppedAt(proxy, streams, urls, i + 1, k) <==> DroppedAt(proxy, streams, urls, i, k)
  {
    RankOfEligible(proxy, streams, i);
    if Eligible(proxy, streams[k]) {
      EligibleAtRank(proxy, streams, k);
    }
  }

  /** Writing back the `i`-th URL settles the `i`-th eligible stream, which was
      untouched before. */
  lemma WriteStepHere(proxy: Option<ProxyConfig>, streams: seq<ParsedStream>, urls: Option<seq<string>>, i: nat)
    requires i < |EligibleIndices(proxy, streams)|
    ensures var k := EligibleIndices(proxy, streams)[i];
      && WrittenAt(proxy, streams, urls, i, k) == streams[k] && !DroppedAt(proxy, streams, urls, i, k)
      && (UrlAt(urls, i).Some? ==>
            WrittenAt(proxy, streams, urls, i + 1, k) == streams[k].(url := UrlAt(urls, i), proxied := Some(true))
            && !DroppedAt(proxy, streams, urls, i + 1, k))
      && (UrlAt(urls, i).None? ==>
            WrittenAt(proxy, streams, urls, i + 1, k) == streams[k] && DroppedAt(proxy, streams, urls, i + 1, k))
  {
    RankOfEligible(proxy, streams, i);
  }

  /** `out` and `remove` once the first `i` URLs are written back. */
  ghost predicate WrittenUpTo(proxy: Option<ProxyConfig>, streams: seq<ParsedStream>, urls: Option<seq<string>>, i: nat,
                        out: seq<ParsedStream>, remove: set<nat>) {
    && |out| == |streams|
    && (forall k :: 0 <= k < |streams| ==> out[k] == WrittenAt(proxy, streams, urls, i, k))
    && (forall k: nat :: k in remove <==> DroppedAt(proxy, streams, urls, i, k))
  }

  /** Writing back the `i`-th URL leaves the other streams and their removal marks as they were. */
  lemma WriteOthers(proxy: Option<ProxyConfig>, streams: seq<ParsedStream>, urls: Option<seq<string>>, i: nat)
    requires i < |EligibleIndices(proxy, streams)|
    ensures var idx := EligibleIndices(proxy, streams)[i];
      forall k :: 0 <= k < |streams| && k != idx ==>
        && WrittenAt(proxy, streams, urls, i + 1, k) == WrittenAt(proxy, streams, urls, i, k)
        && (DroppedAt(proxy, streams, urls, i + 1, k) <==> DroppedAt(proxy, streams, urls, i, k))
  {
    var idx := EligibleIndices(proxy, streams)[i];
    forall k | 0 <= k < |streams| && k != idx
      ensures WrittenAt(proxy, streams, urls, i + 1, k) == WrittenAt(proxy, streams, urls, i, k)
      ensures DroppedAt(proxy, streams, urls, i + 1, k) <==> DroppedAt(proxy, streams, urls, i, k)
    {
      WriteStepElsewhere(proxy, streams, urls, i, k);
    }
  }

  /** The loop iteration that writes a URL into the `i`-th eligible stream. */
  lemma WriteUrl(proxy: Option<ProxyConfig>, streams: seq<ParsedStream>, urls: Option<seq<string>>, i: nat,
                 out: seq<ParsedStream>, remove: set<nat>)
    requires i < |EligibleIndices(proxy, streams)| && UrlAt(urls, i).Some?
    requires WrittenUpTo(proxy, streams, urls, i, out, remove)
    ensures var idx := EligibleIndices(proxy, streams)[i];
      WrittenUpTo(proxy, streams, urls, i + 1, out[idx := out[idx].(url := UrlAt(urls, i), proxied := Some(true))], remove)
  {
    WriteStepHere(proxy, streams, urls, i);
    WriteOthers(proxy, streams, urls, i);
  }

  /** The loop iteration that notes the `i`-th eligible stream for removal. */
  lemma WriteDrop(proxy: Option<ProxyConfig>, streams: seq<ParsedStream>, urls: Option<seq<string>>, i: nat,
                  out: seq<ParsedStream>, remove: set<nat>)
    requires i < |EligibleIndices(proxy, streams)| && UrlAt(urls, i).None?
    requires WrittenUpTo(proxy, streams, urls, i, out, remove)
    ensures WrittenUpTo(proxy, streams, urls, i + 1, out, remove + {EligibleIndices(proxy, streams)[i]})
  {
    WriteStepHere(proxy, streams, urls, i);
    WriteOthers(proxy, streams, urls, i);
  }

  /** Once every URL is written back, the streams are settled. */
  lemma WrittenAllSettled(proxy: Option<ProxyConfig>, streams: seq<ParsedStream>, urls: Option<seq<string>>,
                          out: seq<ParsedStream>, remove: set<nat>)
    requires WrittenUpTo(proxy, streams, urls, |EligibleIndices(proxy, streams)|, out, remove)
    ensures Settled(proxy, streams, urls, out, remove)
  {
    forall k | 0 <= k < |streams| && Eligible(proxy, streams[k])
      ensures Rank(proxy, streams, k) < |EligibleIndices(proxy, streams)|
    {
      EligibleAtRank(proxy, streams, k);
    }
  }

  /** The `forEach` over the streams to proxy: the `i`-th URL is written into
      the `i`-th of them, or its index is noted for removal. */
  method WriteBack(proxy: Option<ProxyConfig>, streams: seq<ParsedStream>, urls: Option<seq<string>>, toProxy: seq<nat>)
    returns (out: seq<ParsedStream>, remove: set<nat>)
    requires toProxy == EligibleIndices(proxy, streams)
    ensures Settled(proxy, streams, urls, out, remove)
  {
    out := streams;
    remove := {};
    for i := 0 to |toProxy|
      invariant WrittenUpTo(proxy, streams, urls, i, out, remove)
    {
      var idx := toProxy[i];
      var proxiedUrl := UrlAt(urls, i);
      if proxiedUrl.Some? {
        WriteUrl(proxy, streams, urls, i, out, remove);
        out := out[idx := out[idx].(url := proxiedUrl, proxied := Some(true))];
      } else {
        WriteDrop(proxy, streams, urls, i, out, remove);
        remove := remove + {idx};
      }
    }
    WrittenAllSettled(proxy, streams, urls, out, remove);
  }

  /** `streams.filter((_, index) => !removeIndexes.has(index))`. */
  method DropRemoved(proxy: Option<ProxyConfig>, streams: seq<ParsedStream>, urls: Option<seq<string>>,
                     out: seq<ParsedStream>, remove: set<nat>) returns (r: seq<ParsedStream>)
    requires Settled(proxy, streams, urls, out, remove)
    ensures r == Proxified(proxy, streams, urls)
  {
    r := [];
    for k := 0 to |out|
      invariant r == KeptUpTo(proxy, streams, urls, k)
    {
      if k !in remove {
        r := r + [out[k]];
      }
    }
  }

  /** `proxify`: the proxied URLs the proxy service returns for the eligible
      streams, in their order, are given as `urls` (`None` when it returned
      nothing). */
  method Proxify(proxy: Option<ProxyConfig>, streams: seq<ParsedStream>, urls: Option<seq<string>>) returns (r: seq<ParsedStream>)
    ensures r == Proxified(proxy, streams, urls)
  {
    if !Enabled(proxy) {
      DisabledIsIdentity(proxy, streams, urls);
      return streams;
    }
    var toProxy := CollectEligible(proxy, streams);
    if |toProxy| == 0 {
      forall k | 0 <= k < |streams| ensures Outcome(proxy, streams, urls, k) == Some(streams[k]) {
      }
      AllKept(proxy, streams, urls, streams, |streams|);
      assert streams[..|streams|] == streams;
      return streams;
    }
    var out, remove := WriteBack(proxy, streams, urls, toProxy);
    if |remove| > 0 {
      r := DropRemoved(proxy, streams, urls, out, remove);
    } else {
      forall k | 0 <= k < |streams| ensures Outcome(proxy, streams, urls, k) == Some(out[k]) {
        assert k !in remove;
      }
      AllKept(proxy, streams, urls, out, |streams|);
      assert out[..|streams|] == out;
      r := out;
    }
  }
}
