/** The id of the episode to pre-cache after the current one: `<title>:<S>:<E>`
    becomes `<title>:<S>:<E+1>`, or the first episode of the next season when the
    current one is the last of its season. */
module Episodes {
  import opened Wrappers
  import opened JsText

  /** One season of the show's metadata. */
  datatype SeasonInfo = SeasonInfo(seasonNumber: int, episodeCount: Option<int>)

  datatype Metadata = Metadata(seasons: Option<seq<SeasonInfo>>)

  /** The number of digits at the end of `s`. */
  function TrailingDigits(s: string): (n: nat)
    ensures n <= |s|
    ensures AllDigits(s[|s| - n..])
    ensures n < |s| ==> !IsDigit(s[|s| - n - 1])
  {
    if |s| > 0 && IsDigit(s[|s| - 1]) then
      var n := 1 + TrailingDigits(s[..|s| - 1]);
      assert s[|s| - n..] == s[..|s| - 1][|s| - n..] + [s[|s| - 1]];
      n
    else 0
  }

  /** The parts of an id that ends in `:<season>:<episode>`. */
  datatype EpisodeRef = EpisodeRef(title: string, season: string, episode: string)

  /** `id.match(/:(\d+):(\d+)$/)`, with the title the text before the match. */
  function SeasonEpisode(id: string): (r: Option<EpisodeRef>)
    ensures r.Some? ==> id == r.value.title + ":" + r.value.season + ":" + r.value.episode
    ensures r.Some? ==> |r.value.season| > 0 && AllDigits(r.value.season)
    ensures r.Some? ==> |r.value.episode| > 0 && AllDigits(r.value.episode)
  {
    var e := TrailingDigits(id);
    if e == 0 || e == |id| || id[|id| - e - 1] != ':' then None
    else
      var rest := id[..|id| - e - 1];
      var d := TrailingDigits(rest);
      if d == 0 || d == |rest| || rest[|rest| - d - 1] != ':' then None
      else
        var r := EpisodeRef(rest[..|rest| - d - 1], rest[|rest| - d..], id[|id| - e..]);
        SplitAtColon(rest, d);
        SplitAtColon(id, e);
        Some(r)
  }

  /** A text with a colon `n` characters before its end is the text before the
      colon, the colon and the last `n` characters. */
  lemma SplitAtColon(s: string, n: nat)
    requires n < |s| && s[|s| - n - 1] == ':'
    ensures s == s[..|s| - n - 1] + ":" + s[|s| - n..]
  {
    assert s == s[..|s| - n - 1] + [s[|s| - n - 1]] + s[|s| - n..];
  }

  lemma {:induction false} TrailingDigitsAfterColon(p: string, b: string)
    requires AllDigits(b)
    ensures TrailingDigits(p + ":" + b) == |b|
    decreases |b|
  {
    var s := p + ":" + b;
    if |b| == 0 {
      assert s[|s| - 1] == ':';
    } else {
      var b' := b[..|b| - 1];
      assert s[..|s| - 1] == p + ":" + b';
      TrailingDigitsAfterColon(p, b');
    }
  }

  /** The pattern matches in one way only: any split of the id into a title and
      two non-empty digit runs after colons is the one found. */
  lemma SeasonEpisodeUnique(t: string, a: string, b: string)
    requires |a| > 0 && AllDigits(a) && |b| > 0 && AllDigits(b)
    ensures SeasonEpisode(t + ":" + a + ":" + b) == Some(EpisodeRef(t, a, b))
  {
    var id := t + ":" + a + ":" + b;
    TrailingDigitsAfterColon(t + ":" + a, b);
    var rest := id[..|id| - |b| - 1];
    assert rest == t + ":" + a;
    TrailingDigitsAfterColon(t, a);
    assert id[|id| - |b| - 1] == ':';
    assert rest[|rest| - |a| - 1] == ':';
    assert rest[..|rest| - |a| - 1] == t;
    assert rest[|rest| - |a|..] == a;
    assert id[|id| - |b|..] == b;
  }

  /** `metadata?.seasons?.find(s => s.season_number === n)`. */
  function SeasonOf(md: Option<Metadata>, n: int): (r: Option<SeasonInfo>)
    ensures r.Some? ==> r.value.seasonNumber == n
  {
    if md.None? || md.value.seasons.None? then None
    else FirstSeason(md.value.seasons.value, n)
  }

  function FirstSeason(ss: seq<SeasonInfo>, n: int): (r: Option<SeasonInfo>)
    ensures r.Some? ==> r.value.seasonNumber == n && r.value in ss
    ensures r.None? ==> forall s :: s in ss ==> s.seasonNumber != n
  {
    if |ss| == 0 then None
    else if ss[0].seasonNumber == n then Some(ss[0])
    else FirstSeason(ss[1..], n)
  }

  /** The last episode of a season whose successor is known: the episode count is
      truthy (present and not 0), equals the episode, and the next season exists. */
  predicate SeasonEnds(md: Option<Metadata>, season: nat, episode: nat) {
    var s := SeasonOf(md, season);
    s.Some? && s.value.episodeCount.Some? && s.value.episodeCount.value != 0 &&
    episode == s.value.episodeCount.value && SeasonOf(md, season + 1).Some?
  }

  /** The id to pre-cache, or `None` when the id has no season/episode suffix. The
      season text is kept as written unless the season rolls over. */
  function NextEpisodeId(id: string, md: Option<Metadata>): (r: Option<string>)
    ensures SeasonEpisode(id).None? <==> r.None?
  {
    match SeasonEpisode(id)
    case None => None
    case Some(ref) =>
      var season := DigitsValue(ref.season);
      var episode := DigitsValue(ref.episode);
      if SeasonEnds(md, season, episode) then
        Some(ref.title + ":" + NatToString(season + 1) + ":1")
      else
        Some(ref.title + ":" + ref.season + ":" + NatToString(episode + 1))
  }

  /** Within a season the next id is the following episode of the same title and season. */
  lemma NextWithinSeason(t: string, s: nat, e: nat, md: Option<Metadata>)
    requires !SeasonEnds(md, s, e)
    ensures NextEpisodeId(t + ":" + NatToString(s) + ":" + NatToString(e), md) ==
      Some(t + ":" + NatToString(s) + ":" + NatToString(e + 1))
  {
    SeasonEpisodeUnique(t, NatToString(s), NatToString(e));
    DigitsOfNat(s);
    DigitsOfNat(e);
  }

  /** After the last episode of a season comes episode 1 of the next season. */
  lemma NextAcrossSeasons(t: string, s: nat, e: nat, md: Option<Metadata>)
    requires SeasonEnds(md, s, e)
    ensures NextEpisodeId(t + ":" + NatToString(s) + ":" + NatToString(e), md) ==
      Some(t + ":" + NatToString(s + 1) + ":1")
  {
    SeasonEpisodeUnique(t, NatToString(s), NatToString(e));
    DigitsOfNat(s);
    DigitsOfNat(e);
  }

  lemma NatToStringOne()
    ensures NatToString(1) == "1"
  {
    DivMod(1, 10);
    assert DigitChar(1) == '1';
    assert ToRadix(1, 10) == ['1'];
  }

  /** `next` is the episode after `ref` of the same title: one episode further on
      in the same season, or episode 1 of the following season. */
  predicate FollowsOn(ref: EpisodeRef, next: EpisodeRef) {
    AllDigits(ref.season) && AllDigits(ref.episode) && AllDigits(next.season) && AllDigits(next.episode) &&
    next.title == ref.title &&
    ((DigitsValue(next.season) == DigitsValue(ref.season) && DigitsValue(next.episode) == DigitsValue(ref.episode) + 1) ||
     (DigitsValue(next.season) == DigitsValue(ref.season) + 1 && DigitsValue(next.episode) == 1))
  }

  /** The next id is itself an episode id, and its episode follows on from the
      current one. */
  lemma NextIsEpisodeOfSameTitle(id: string, md: Option<Metadata>)
    requires SeasonEpisode(id).Some?
    ensures SeasonEpisode(NextEpisodeId(id, md).value).Some?
    ensures FollowsOn(SeasonEpisode(id).value, SeasonEpisode(NextEpisodeId(id, md).value).value)
  {
    var ref := SeasonEpisode(id).value;
    if SeasonEnds(md, DigitsValue(ref.season), DigitsValue(ref.episode)) {
      NextOfLastEpisode(id, md);
    } else {
      NextOfOtherEpisode(id, md);
    }
  }

  lemma FollowsAcross(ref: EpisodeRef)
    requires AllDigits(ref.season) && AllDigits(ref.episode)
    ensures FollowsOn(ref, EpisodeRef(ref.title, NatToString(DigitsValue(ref.season) + 1), "1"))
  {
    NatToStringOne();
    DigitsOfNat(1);
    DigitsOfNat(DigitsValue(ref.season) + 1);
  }

  lemma FollowsWithin(ref: EpisodeRef)
    requires AllDigits(ref.season) && AllDigits(ref.episode)
    ensures FollowsOn(ref, EpisodeRef(ref.title, ref.season, NatToString(DigitsValue(ref.episode) + 1)))
  {
    DigitsOfNat(DigitsValue(ref.episode) + 1);
  }

  lemma NextOfLastEpisode(id: string, md: Option<Metadata>)
    requires SeasonEpisode(id).Some?
    requires var ref := SeasonEpisode(id).value; SeasonEnds(md, DigitsValue(ref.season), DigitsValue(ref.episode))
    ensures var ref := SeasonEpisode(id).value;
      var next := SeasonEpisode(NextEpisodeId(id, md).value);
      next == Some(EpisodeRef(ref.title, NatToString(DigitsValue(ref.season) + 1), "1"))
    ensures FollowsOn(SeasonEpisode(id).value, SeasonEpisode(NextEpisodeId(id, md).value).value)
  {
    var ref := SeasonEpisode(id).value;
    var n := NextEpisodeId(id, md).value;
    assert n == ref.title + ":" + NatToString(DigitsValue(ref.season) + 1) + ":" + "1";
    SeasonEpisodeUnique(ref.title, NatToString(DigitsValue(ref.season) + 1), "1");
    FollowsAcross(ref);
  }

  lemma NextOfOtherEpisode(id: string, md: Option<Metadata>)
    requires SeasonEpisode(id).Some?
    requires var ref := SeasonEpisode(id).value; !SeasonEnds(md, DigitsValue(ref.season), DigitsValue(ref.episode))
    ensures var ref := SeasonEpisode(id).value;
      var next := SeasonEpisode(NextEpisodeId(id, md).value);
      next == Some(EpisodeRef(ref.title, ref.season, NatToString(DigitsValue(ref.episode) + 1)))
    ensures FollowsOn(SeasonEpisode(id).value, SeasonEpisode(NextEpisodeId(id, md).value).value)
  {
    var ref := SeasonEpisode(id).value;
    var n := NextEpisodeId(id, md).value;
    assert n == ref.title + ":" + ref.season + ":" + NatToString(DigitsValue(ref.episode) + 1);
    SeasonEpisodeUnique(ref.title, ref.season, NatToString(DigitsValue(ref.episode) + 1));
    FollowsWithin(ref);
  }
}
