/** The user's catalog modifications applied to the merged catalog list: modified
    catalogs move to the front in the order of the modification list, disabled
    ones are dropped, and the rest are renamed, hidden from the home page or
    re-typed as their modification says. */
module CatalogModifications {
  import opened Wrappers
  import opened JsText
  import opened Manifests

  /** One entry of `catalogModifications` (the fields the list build reads). */
  datatype Modification = Modification(
    id: string,
    catalogType: string,
    name: Option<string>,
    enabled: Option<bool>,
    onlyOnDiscover: bool,
    overrideType: Option<string>,
    disableSearch: bool)

  predicate ModifiesCatalog(m: Modification, c: Catalog) {
    m.id == c.id && m.catalogType == c.catalogType
  }

  /** `mods.findIndex(mod => mod.id === c.id && mod.type === c.type)`. */
  function ModIndex(mods: seq<Modification>, c: Catalog): (r: Option<nat>)
    ensures r.Some? ==> r.value < |mods| && ModifiesCatalog(mods[r.value], c)
    ensures r.Some? ==> forall i :: 0 <= i < r.value ==> !ModifiesCatalog(mods[i], c)
    ensures r.None? ==> forall i :: 0 <= i < |mods| ==> !ModifiesCatalog(mods[i], c)
  {
    if |mods| == 0 then None
    else if ModifiesCatalog(mods[0], c) then Some(0)
    else
      match ModIndex(mods[1..], c)
      case Some(i) => Some(i + 1)
      case None => None
  }

  /** The sort key: the position of the catalog's modification, with unmodified
      catalogs after all of them. */
  function Rank(mods: seq<Modification>, c: Catalog): (k: nat)
    ensures k <= |mods|
    ensures k == |mods| <==> ModIndex(mods, c).None?
  {
    match ModIndex(mods, c)
    case Some(i) => i
    case None => |mods|
  }

  /** The catalogs of rank `k`, in their original order. */
  function WithRank(cs: seq<Catalog>, mods: seq<Modification>, k: nat): (r: seq<Catalog>)
    ensures forall i :: 0 <= i < |r| ==> Rank(mods, r[i]) == k
    ensures |r| <= |cs|
  {
    if |cs| == 0 then []
    else
      var w := WithRank(cs[..|cs| - 1], mods, k);
      if Rank(mods, cs[|cs| - 1]) == k then w + [cs[|cs| - 1]] else w
  }

  /** The catalogs of rank `k` and above, grouped by rank. */
  function FromRank(cs: seq<Catalog>, mods: seq<Modification>, k: nat): (r: seq<Catalog>)
    ensures forall i :: 0 <= i < |r| ==> k <= Rank(mods, r[i])
    decreases |mods| + 1 - k
  {
    if k > |mods| then []
    else WithRank(cs, mods, k) + FromRank(cs, mods, k + 1)
  }

  /** The stable sort of the catalog list by rank. */
  function Ordered(cs: seq<Catalog>, mods: seq<Modification>): seq<Catalog> {
    FromRank(cs, mods, 0)
  }

  /** No catalog is followed by one of a smaller rank. */
  predicate SortedByRank(s: seq<Catalog>, mods: seq<Modification>) {
    forall i, j :: 0 <= i < j < |s| ==> Rank(mods, s[i]) <= Rank(mods, s[j])
  }

  lemma {:induction false} FromRankSorted(cs: seq<Catalog>, mods: seq<Modification>, k: nat)
    ensures SortedByRank(FromRank(cs, mods, k), mods)
    decreases |mods| + 1 - k
  {
    if k <= |mods| {
      FromRankSorted(cs, mods, k + 1);
      var w := WithRank(cs, mods, k);
      var rest := FromRank(cs, mods, k + 1);
      var r := w + rest;
      forall i, j | 0 <= i < j < |r| ensures Rank(mods, r[i]) <= Rank(mods, r[j]) {
        if j < |w| {
          assert r[i] == w[i] && r[j] == w[j];
        } else if i < |w| {
          assert r[i] == w[i];
          assert r[j] == rest[j - |w|];
        } else {
          assert r[i] == rest[i - |w|] && r[j] == rest[j - |w|];
        }
      }
    }
  }

  lemma OrderedSorted(cs: seq<Catalog>, mods: seq<Modification>)
    ensures SortedByRank(Ordered(cs, mods), mods)
  {
    FromRankSorted(cs, mods, 0);
  }

  /** The catalogs of rank at least `k`, in their original order. */
  function AtLeast(cs: seq<Catalog>, mods: seq<Modification>, k: nat): seq<Catalog> {
    if |cs| == 0 then []
    else
      var w := AtLeast(cs[..|cs| - 1], mods, k);
      if Rank(mods, cs[|cs| - 1]) >= k then w + [cs[|cs| - 1]] else w
  }

  lemma {:induction false} AtLeastSplits(cs: seq<Catalog>, mods: seq<Modification>, k: nat)
    ensures multiset(AtLeast(cs, mods, k)) == multiset(WithRank(cs, mods, k)) + multiset(AtLeast(cs, mods, k + 1))
    decreases |cs|
  {
    if |cs| > 0 {
      AtLeastSplits(cs[..|cs| - 1], mods, k);
    }
  }

  lemma {:induction false} AtLeastAll(cs: seq<Catalog>, mods: seq<Modification>)
    ensures AtLeast(cs, mods, 0) == cs
    decreases |cs|
  {
    if |cs| > 0 {
      AtLeastAll(cs[..|cs| - 1], mods);
      assert cs[..|cs| - 1] + [cs[|cs| - 1]] == cs;
    }
  }

  lemma {:induction false} AtLeastBeyond(cs: seq<Catalog>, mods: seq<Modification>)
    ensures AtLeast(cs, mods, |mods| + 1) == []
    decreases |cs|
  {
    if |cs| > 0 {
      AtLeastBeyond(cs[..|cs| - 1], mods);
    }
  }

  lemma {:induction false} FromRankPermutes(cs: seq<Catalog>, mods: seq<Modification>, k: nat)
    requires k <= |mods| + 1
    ensures multiset(FromRank(cs, mods, k)) == multiset(AtLeast(cs, mods, k))
    decreases |mods| + 1 - k
  {
    if k > |mods| {
      AtLeastBeyond(cs, mods);
    } else {
      FromRankPermutes(cs, mods, k + 1);
      AtLeastSplits(cs, mods, k);
    }
  }

  /** Sorting only reorders: the same catalogs, each as often as before. */
  lemma OrderedPermutes(cs: seq<Catalog>, mods: seq<Modification>)
    ensures multiset(Ordered(cs, mods)) == multiset(cs)
  {
    FromRankPermutes(cs, mods, 0);
    AtLeastAll(cs, mods);
  }

  lemma {:induction false} WithRankConcat(a: seq<Catalog>, b: seq<Catalog>, mods: seq<Modification>, k: nat)
    ensures WithRank(a + b, mods, k) == WithRank(a, mods, k) + WithRank(b, mods, k)
    decreases |b|
  {
    if |b| == 0 {
      assert a + b == a;
    } else {
      var b' := b[..|b| - 1];
      WithRankConcat(a, b', mods, k);
      assert (a + b)[..|a + b| - 1] == a + b';
    }
  }

  lemma {:induction false} WithRankOfWithRank(cs: seq<Catalog>, mods: seq<Modification>, j: nat, k: nat)
    ensures WithRank(WithRank(cs, mods, j), mods, k) == if j == k then WithRank(cs, mods, k) else []
    decreases |cs|
  {
    if |cs| > 0 {
      var init := cs[..|cs| - 1];
      WithRankOfWithRank(init, mods, j, k);
      var w := WithRank(init, mods, j);
      if Rank(mods, cs[|cs| - 1]) == j {
        WithRankConcat(w, [cs[|cs| - 1]], mods, k);
        assert [cs[|cs| - 1]][..0] == [];
      }
    }
  }

  /** The catalogs of rank `k` among those of rank `j` and above. */
  function RankFrom(cs: seq<Catalog>, mods: seq<Modification>, j: nat, k: nat): seq<Catalog> {
    if j <= k <= |mods| then WithRank(cs, mods, k) else []
  }

  lemma {:induction false} FromRankStable(cs: seq<Catalog>, mods: seq<Modification>, j: nat, k: nat)
    ensures WithRank(FromRank(cs, mods, j), mods, k) == RankFrom(cs, mods, j, k)
    decreases |mods| + 1 - j
  {
    if j <= |mods| {
      FromRankStable(cs, mods, j + 1, k);
      FromRankStableInduct(cs, mods, j, k);
    } else {
      FromRankBeyond(cs, mods, j, k);
    }
  }

  lemma FromRankBeyond(cs: seq<Catalog>, mods: seq<Modification>, j: nat, k: nat)
    requires j > |mods|
    ensures WithRank(FromRank(cs, mods, j), mods, k) == RankFrom(cs, mods, j, k)
  {
    assert FromRank(cs, mods, j) == [];
  }

  /** The inductive step of `FromRankStable`: from rank `j + 1` to rank `j`. */
  lemma FromRankStableInduct(cs: seq<Catalog>, mods: seq<Modification>, j: nat, k: nat)
    requires j <= |mods|
    requires WithRank(FromRank(cs, mods, j + 1), mods, k) == RankFrom(cs, mods, j + 1, k)
    ensures WithRank(FromRank(cs, mods, j), mods, k) == RankFrom(cs, mods, j, k)
  {
    FromRankStableStep(cs, mods, j, k);
    var w := WithRank(cs, mods, k);
    if j == k {
      assert w + [] == w;
    } else if j < k <= |mods| {
      assert [] + w == w;
    }
  }

  lemma FromRankStableStep(cs: seq<Catalog>, mods: seq<Modification>, j: nat, k: nat)
    requires j <= |mods|
    ensures WithRank(FromRank(cs, mods, j), mods, k) ==
      (if j == k then WithRank(cs, mods, k) else []) + WithRank(FromRank(cs, mods, j + 1), mods, k)
  {
    WithRankConcat(WithRank(cs, mods, j), FromRank(cs, mods, j + 1), mods, k);
    WithRankOfWithRank(cs, mods, j, k);
  }

  /** Catalogs of the same rank keep their relative order: in particular the
      unmodified catalogs (rank `|mods|`) stay in their original order, and so do
      catalogs sharing one modification. */
  lemma OrderedStable(cs: seq<Catalog>, mods: seq<Modification>, k: nat)
    ensures WithRank(Ordered(cs, mods), mods, k) == WithRank(cs, mods, k)
  {
    FromRankStable(cs, mods, 0, k);
    if k > |mods| {
      WithRankAbove(cs, mods, k);
    }
  }

  lemma {:induction false} WithRankAbove(cs: seq<Catalog>, mods: seq<Modification>, k: nat)
    requires k > |mods|
    ensures WithRank(cs, mods, k) == []
    decreases |cs|
  {
    if |cs| > 0 {
      WithRankAbove(cs[..|cs| - 1], mods, k);
    }
  }

  // ---------------------------------------------------------------------------
  // Filtering and rewriting

  /** `mods.find(mod => mod.id === c.id && mod.type === c.type)`. */
  function ModFor(mods: seq<Modification>, c: Catalog): (r: Option<Modification>)
    ensures r.Some? <==> ModIndex(mods, c).Some?
    ensures r.Some? ==> r.value == mods[ModIndex(mods, c).value]
  {
    match ModIndex(mods, c)
    case Some(i) => Some(mods[i])
    case None => None
  }

  /** A catalog stays unless its modification explicitly says `enabled: false`. */
  predicate Kept(mods: seq<Modification>, c: Catalog) {
    !(ModFor(mods, c).Some? && ModFor(mods, c).value.enabled == Some(false))
  }

  function KeptOnly(cs: seq<Catalog>, mods: seq<Modification>): (r: seq<Catalog>)
    ensures forall c :: c in r <==> c in cs && Kept(mods, c)
    ensures |r| <= |cs|
  {
    if |cs| == 0 then []
    else
      var w := KeptOnly(cs[..|cs| - 1], mods);
      assert cs == cs[..|cs| - 1] + [cs[|cs| - 1]];
      if Kept(mods, cs[|cs| - 1]) then w + [cs[|cs| - 1]] else w
  }

  /** The filter keeps the catalogs in their order, each as often as it occurs: a
      catalog in front adds at most itself in front. */
  lemma {:induction false} KeptOnlyCons(c: Catalog, cs: seq<Catalog>, mods: seq<Modification>)
    ensures KeptOnly([c] + cs, mods) == (if Kept(mods, c) then [c] else []) + KeptOnly(cs, mods)
    decreases |cs|
  {
    if |cs| == 0 {
      assert ([c] + cs)[..0] == [];
    } else {
      KeptOnlyCons(c, cs[..|cs| - 1], mods);
      KeptOnlyConsStep(c, cs, mods);
    }
  }

  /** Dropping the last element commutes with putting one in front. */
  lemma ConsInit<T>(x: T, s: seq<T>)
    requires |s| > 0
    ensures var l := [x] + s; l[..|l| - 1] == [x] + s[..|s| - 1] && l[|l| - 1] == s[|s| - 1]
  {
  }

  /** The inductive step of `KeptOnlyCons`: from all catalogs but the last to all. */
  lemma KeptOnlyConsStep(c: Catalog, cs: seq<Catalog>, mods: seq<Modification>)
    requires |cs| > 0
    requires KeptOnly([c] + cs[..|cs| - 1], mods) == (if Kept(mods, c) then [c] else []) + KeptOnly(cs[..|cs| - 1], mods)
    ensures KeptOnly([c] + cs, mods) == (if Kept(mods, c) then [c] else []) + KeptOnly(cs, mods)
  {
    var l := [c] + cs;
    var init := cs[..|cs| - 1];
    var last := cs[|cs| - 1];
    var front := if Kept(mods, c) then [c] else [];
    var back := if Kept(mods, last) then [last] else [];
    ConsInit(c, cs);
    assert KeptOnly(l, mods) == KeptOnly(l[..|l| - 1], mods) + back;
    assert KeptOnly(cs, mods) == KeptOnly(init, mods) + back;
    AppendAssoc(front, KeptOnly(init, mods), back);
  }


  /** The first genre extra of a catalog's extra list. */
  function GenreIndex(es: seq<Extra>): (r: Option<nat>)
    ensures r.Some? ==> r.value < |es| && es[r.value].name == "genre"
    ensures r.Some? ==> forall i :: 0 <= i < r.value ==> es[i].name != "genre"
    ensures r.None? ==> forall i :: 0 <= i < |es| ==> es[i].name != "genre"
  {
    if |es| == 0 then None
    else if es[0].name == "genre" then Some(0)
    else
      match GenreIndex(es[1..])
      case Some(i) => Some(i + 1)
      case None => None
  }

  /** The genre extra made required; an option "None" is put first when it was
      not required before, so the catalog stays reachable without a genre. */
  function RequiredGenre(e: Extra): (r: Extra)
    ensures r.name == e.name && r.isRequired == Some(true)
    ensures e.isRequired != Some(true) && e.options.Some? ==> r.options == Some(["None"] + e.options.value)
    ensures e.isRequired == Some(true) || e.options.None? ==> r.options == e.options
  {
    var options := if e.isRequired != Some(true) then
        match e.options case Some(o) => Some(["None"] + o) case None => None
      else e.options;
    e.(options := options, isRequired := Some(true))
  }

  /** onlyOnDiscover: a catalog that cannot be shown without a genre is hidden from
      the home page. An existing genre extra becomes required; without one, a
      required genre extra offering only "None" is appended. */
  function OnlyOnDiscover(c: Catalog): (r: Catalog)
    ensures r.id == c.id && r.catalogType == c.catalogType && r.name == c.name
    ensures r.extra.Some?
    ensures c.extra.Some? && GenreIndex(c.extra.value).Some? ==>
      var i := GenreIndex(c.extra.value).value;
      r.extra.value == c.extra.value[i := RequiredGenre(c.extra.value[i])]
    ensures (c.extra.None? || GenreIndex(c.extra.value).None?) ==>
      r.extra.value == c.extra.GetOr([]) + [Extra("genre", Some(["None"]), Some(true))]
  {
    match c.extra
    case Some(es) =>
      (match GenreIndex(es)
       case Some(i) => c.(extra := Some(es[i := RequiredGenre(es[i])]))
       case None => c.(extra := Some(es + [Extra("genre", Some(["None"]), Some(true))])))
    case None => c.(extra := Some([Extra("genre", Some(["None"]), Some(true))]))
  }

  /** After onlyOnDiscover the catalog's first genre extra is required. */
  lemma OnlyOnDiscoverRequiresGenre(c: Catalog)
    ensures var es := OnlyOnDiscover(c).extra.value;
      GenreIndex(es).Some? && es[GenreIndex(es).value].isRequired == Some(true)
  {
    var es := OnlyOnDiscover(c).extra.value;
    match c.extra
    case Some(before) =>
      match GenreIndex(before) {
        case Some(i) =>
          GenreIndexOfUpdate(before, i, RequiredGenre(before[i]));
        case None =>
          GenreIndexOfAppend(before, Extra("genre", Some(["None"]), Some(true)));
      }
    case None =>
  }

  lemma {:induction false} GenreIndexOfUpdate(es: seq<Extra>, i: nat, e: Extra)
    requires i < |es| && GenreIndex(es) == Some(i) && e.name == "genre"
    ensures GenreIndex(es[i := e]) == Some(i)
    decreases |es|
  {
    if i > 0 {
      assert es[i := e][1..] == es[1..][i - 1 := e];
      GenreIndexOfUpdate(es[1..], i - 1, e);
    }
  }

  lemma {:induction false} GenreIndexOfAppend(es: seq<Extra>, e: Extra)
    requires GenreIndex(es).None? && e.name == "genre"
    ensures GenreIndex(es + [e]) == Some(|es|)
    decreases |es|
  {
    if |es| == 0 {
      assert es + [e] == [e];
    } else {
      assert (es + [e])[1..] == es[1..] + [e];
      GenreIndexOfAppend(es[1..], e);
    }
  }

  /** Without the search extras. */
  predicate IsSearch(e: Extra) { e.name == "search" }

  function NoSearch(es: seq<Extra>): (r: seq<Extra>)
    ensures forall e :: e in r <==> e in es && !IsSearch(e)
    ensures |r| <= |es|
  {
    if |es| == 0 then []
    else if !IsSearch(es[0]) then [es[0]] + NoSearch(es[1..])
    else NoSearch(es[1..])
  }

  /** The filter keeps the extras in their order: one more extra at the end adds at
      most itself at the end. */
  lemma {:induction false} NoSearchSnoc(es: seq<Extra>, e: Extra)
    ensures NoSearch(es + [e]) == NoSearch(es) + (if IsSearch(e) then [] else [e])
    decreases |es|
  {
    if |es| == 0 {
      assert es + [e] == [e];
    } else {
      assert (es + [e])[1..] == es[1..] + [e];
      NoSearchSnoc(es[1..], e);
    }
  }

  function Rewritten(m: Modification, c: Catalog): (r: Catalog)
    ensures r.id == c.id
    ensures r.name == if m.name.Some? && m.name.value != "" then m.name.value else c.name
    ensures r.catalogType == if m.overrideType.Some? then m.overrideType.value else c.catalogType
    ensures m.disableSearch && r.extra.Some? ==> forall e :: e in r.extra.value ==> !IsSearch(e)
    ensures !m.onlyOnDiscover && !m.disableSearch ==> r.extra == c.extra
    ensures !m.onlyOnDiscover && m.disableSearch ==>
      r.extra == (if c.extra.Some? then Some(NoSearch(c.extra.value)) else None)
    ensures m.onlyOnDiscover && !m.disableSearch ==> r.extra == OnlyOnDiscover(c).extra
    ensures m.onlyOnDiscover && m.disableSearch ==> r.extra == Some(NoSearch(OnlyOnDiscover(c).extra.value))
  {
    var named := if m.name.Some? && m.name.value != "" then c.(name := m.name.value) else c;
    var hidden := if m.onlyOnDiscover then OnlyOnDiscover(named) else named;
    var typed := if m.overrideType.Some? then hidden.(catalogType := m.overrideType.value) else hidden;
    if m.disableSearch then
      typed.(extra := match typed.extra case Some(es) => Some(NoSearch(es)) case None => None)
    else typed
  }

  /** A catalog after its own modification, if it has one. */
  function Applied(mods: seq<Modification>, c: Catalog): (r: Catalog)
    ensures ModFor(mods, c).None? ==> r == c
  {
    match ModFor(mods, c)
    case Some(m) => Rewritten(m, c)
    case None => c
  }

  function AppliedAll(cs: seq<Catalog>, mods: seq<Modification>): (r: seq<Catalog>)
    ensures |r| == |cs|
    ensures forall i :: 0 <= i < |cs| ==> r[i] == Applied(mods, cs[i])
  {
    seq(|cs|, i requires 0 <= i < |cs| => Applied(mods, cs[i]))
  }

  /** The catalog list after the modifications: sorted, filtered, rewritten. */
  function Modified(cs: seq<Catalog>, mods: seq<Modification>): seq<Catalog> {
    AppliedAll(KeptOnly(Ordered(cs, mods), mods), mods)
  }

  /** A catalog is dropped exactly when its modification disables it: every kept
      catalog appears, rewritten, and every catalog that appears came from a kept
      one. */
  lemma ModifiedKeepsExactlyEnabled(cs: seq<Catalog>, mods: seq<Modification>, c: Catalog)
    ensures c in cs && Kept(mods, c) ==> Applied(mods, c) in Modified(cs, mods)
    ensures forall r :: r in Modified(cs, mods) ==> exists d :: d in cs && Kept(mods, d) && r == Applied(mods, d)
  {
    var o := Ordered(cs, mods);
    var k := KeptOnly(o, mods);
    OrderedPermutes(cs, mods);
    assert forall d :: d in o <==> d in cs by {
      forall d ensures d in o <==> d in cs {
        assert d in o <==> d in multiset(o);
        assert d in cs <==> d in multiset(cs);
      }
    }
    if c in cs && Kept(mods, c) {
      assert c in k;
      var i :| 0 <= i < |k| && k[i] == c;
      assert Modified(cs, mods)[i] == Applied(mods, c);
    }
    forall r | r in Modified(cs, mods)
      ensures exists d :: d in cs && Kept(mods, d) && r == Applied(mods, d)
    {
      var i :| 0 <= i < |Modified(cs, mods)| && Modified(cs, mods)[i] == r;
      assert k[i] in k;
    }
  }

  /** Dropping disabled catalogs keeps a list sorted by rank. */
  lemma {:induction false} KeptOnlySorted(s: seq<Catalog>, mods: seq<Modification>)
    requires SortedByRank(s, mods)
    ensures SortedByRank(KeptOnly(s, mods), mods)
    decreases |s|
  {
    if |s| > 0 {
      var init := s[..|s| - 1];
      var last := s[|s| - 1];
      assert SortedByRank(init, mods) by {
        forall i, j | 0 <= i < j < |init| ensures Rank(mods, init[i]) <= Rank(mods, init[j]) {
          assert init[i] == s[i] && init[j] == s[j];
        }
      }
      KeptOnlySorted(init, mods);
      var w := KeptOnly(init, mods);
      if Kept(mods, last) {
        var k := w + [last];
        forall i, j | 0 <= i < j < |k| ensures Rank(mods, k[i]) <= Rank(mods, k[j]) {
          if j == |w| {
            assert k[i] == w[i] && w[i] in w;
            assert k[i] in init;
            var m :| 0 <= m < |init| && init[m] == k[i];
            assert s[m] == k[i] && k[j] == s[|s| - 1];
          } else {
            assert k[i] == w[i] && k[j] == w[j];
          }
        }
      }
    }
  }

  /** Filtering by rank and filtering out disabled catalogs commute. */
  lemma {:induction false} KeptWithRank(s: seq<Catalog>, mods: seq<Modification>, k: nat)
    ensures WithRank(KeptOnly(s, mods), mods, k) == KeptOnly(WithRank(s, mods, k), mods)
    decreases |s|
  {
    if |s| > 0 {
      var init := s[..|s| - 1];
      var last := s[|s| - 1];
      KeptWithRank(init, mods, k);
      var w := KeptOnly(init, mods);
      var v := WithRank(init, mods, k);
      if Kept(mods, last) {
        WithRankConcat(w, [last], mods, k);
        assert [last][..0] == [];
      }
      if Rank(mods, last) == k {
        assert (v + [last])[..|v|] == v;
      }
    }
  }

  /** The kept catalogs come out sorted by their modification's position, the
      unmodified ones last; within one rank they keep their original order; and
      rewriting changes no id. */
  lemma ModifiedOrder(cs: seq<Catalog>, mods: seq<Modification>, rank: nat)
    ensures var r := Modified(cs, mods); var k := KeptOnly(Ordered(cs, mods), mods);
      |r| == |k| &&
      (forall i :: 0 <= i < |r| ==> r[i].id == k[i].id) &&
      SortedByRank(k, mods) &&
      WithRank(k, mods, rank) == WithRank(KeptOnly(cs, mods), mods, rank)
  {
    OrderedSorted(cs, mods);
    KeptOnlySorted(Ordered(cs, mods), mods);
    KeptWithRank(Ordered(cs, mods), mods, rank);
    OrderedStable(cs, mods, rank);
    KeptWithRank(cs, mods, rank);
  }
}
