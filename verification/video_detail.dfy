/** The detail screen for one video: the local information shown first,
    the catalog lookup that may follow, and how the series and episode
    responses fill in the view. */
module VideoDetail {

  import opened Wrappers
  import opened Strings
  import opened Files

  // ---------------------------------------------------------------------------
  // View state

  /** The three images a rating star can show. */
  datatype StarImage = EmptyStar | HalfStar | FullStar

  /** A media track as reported by the player; `trackType` is the value
      under the `"type"` key. */
  datatype Track = Track(trackType: string, width: int, height: int, codec: int, channels: int, rate: int)

  /** A stack view with its label: whether it is hidden and the label's
      text. */
  datatype Section = Section(hidden: bool, text: string)

  /** The rating area: the star row's and the score label's `isHidden`,
      the score shown, and the images of the star row. */
  datatype Rating = Rating(starHidden: bool, scoreHidden: bool, score: Option<real>, stars: seq<StarImage>)

  /** What the detail screen displays. `videoTrack` and `audioTrack` are the
      tracks the two description labels describe; `searchedTitle` is the
      catalog name remembered for the translated title. */
  datatype DetailView = DetailView(
    title: string,
    videoTrack: Option<Track>,
    audioTrack: Option<Track>,
    content: Section,
    writer: Section,
    cast: Section,
    rating: Rating,
    creator: Section,
    genre: Section,
    moreHidden: bool,
    moreURL: Option<string>,
    searchedTitle: Option<string>)

  /** A section shows `text` when `show` holds; otherwise it is hidden and
      its label keeps its previous text. */
  function ShowIf(section: Section, show: bool, text: string): (r: Section)
    ensures r.hidden <==> !show
    ensures r.text == if show then text else section.text
  {
    if show then Section(false, text) else section.(hidden := true)
  }

  // ---------------------------------------------------------------------------
  // Track selection

  /** The last track of type `t`, if any. */
  function LastOfType(tracks: seq<Track>, t: string): (r: Option<Track>)
    ensures r.None? <==> forall i :: 0 <= i < |tracks| ==> tracks[i].trackType != t
    ensures r.Some? ==>
      exists i :: 0 <= i < |tracks| && tracks[i] == r.value && tracks[i].trackType == t
        && forall j :: i < j < |tracks| ==> tracks[j].trackType != t
    decreases |tracks|
  {
    if |tracks| == 0 then None
    else if tracks[|tracks| - 1].trackType == t then Some(tracks[|tracks| - 1])
    else
      var earlier := LastOfType(tracks[..|tracks| - 1], t);
      assert forall i :: 0 <= i < |tracks| - 1 ==> tracks[..|tracks| - 1][i] == tracks[i];
      earlier
  }

  /** The scan over the tracks: each audio track overwrites the audio
      choice, each video track the video choice, so the last of each wins. */
  method SelectTracks(tracks: seq<Track>) returns (videoInfo: Option<Track>, audioInfo: Option<Track>)
    ensures videoInfo == LastOfType(tracks, "video")
    ensures audioInfo == LastOfType(tracks, "audio")
  {
    videoInfo := None;
    audioInfo := None;
    var i := 0;
    while i < |tracks|
      invariant 0 <= i <= |tracks|
      invariant videoInfo == LastOfType(tracks[..i], "video")
      invariant audioInfo == LastOfType(tracks[..i], "audio")
    {
      var info := tracks[i];
      assert tracks[..i + 1][..i] == tracks[..i];
      if info.trackType == "audio" {
        audioInfo := Some(info);
      } else if info.trackType == "video" {
        videoInfo := Some(info);
      }
      i := i + 1;
    }
    assert tracks[..i] == tracks;
  }

  /** `setInitialUI`: with a file, its display name becomes the title and,
      when the player exposes track information, the last video and last
      audio track are described; a missing kind leaves its label alone. */
  function InitialUI(v: DetailView, data: Option<FileObject>, tracks: Option<seq<Track>>): (r: DetailView)
    ensures data.None? ==> r == v
    ensures data.Some? ==> r.title == data.value.name
    ensures tracks.None? ==> r.videoTrack == v.videoTrack && r.audioTrack == v.audioTrack
    ensures data.Some? && tracks.Some? ==>
      && (r.videoTrack == if LastOfType(tracks.value, "video").Some? then LastOfType(tracks.value, "video") else v.videoTrack)
      && (r.audioTrack == if LastOfType(tracks.value, "audio").Some? then LastOfType(tracks.value, "audio") else v.audioTrack)
    ensures r == v.(title := r.title, videoTrack := r.videoTrack, audioTrack := r.audioTrack)
  {
    match data
    case None => v
    case Some(file) =>
      var named := v.(title := file.name);
      match tracks
      case None => named
      case Some(ts) =>
        var video := LastOfType(ts, "video");
        var audio := LastOfType(ts, "audio");
        named.(videoTrack := if video.Some? then video else named.videoTrack,
               audioTrack := if audio.Some? then audio else named.audioTrack)
  }

  /** Running `setInitialUI` again changes nothing. */
  lemma InitialUIIdempotent(v: DetailView, data: Option<FileObject>, tracks: Option<seq<Track>>)
    ensures InitialUI(InitialUI(v, data, tracks), data, tracks) == InitialUI(v, data, tracks)
  {
  }

  // ---------------------------------------------------------------------------
  // Star rating

  /** How much of a star is filled: 0, 1 or 2 halves. */
  function Halves(s: StarImage): nat {
    match s
    case EmptyStar => 0
    case HalfStar => 1
    case FullStar => 2
  }

  /** Star `k` (from 0) for a vote average: half from `2k+1`, full from
      `2k+2`, and otherwise whatever it showed before. */
  function StarFor(previous: StarImage, k: nat, average: real): StarImage {
    if average >= (2 * k + 1) as real then
      if average >= (2 * k + 2) as real then FullStar else HalfStar
    else previous
  }

  /** `setVoteStarImageUI`: a positive average shows the stars and the score
      and sets the first five stars by the thresholds; otherwise both are
      hidden and no star changes. */
  function SetVoteStarImageUI(rating: Rating, average: real): (r: Rating)
    requires |rating.stars| >= 5
    ensures r.starHidden == (average <= 0.0) && r.scoreHidden == (average <= 0.0)
    ensures r.score == if average > 0.0 then Some(average) else rating.score
    ensures |r.stars| == |rating.stars|
    ensures forall k :: 0 <= k < 5 ==>
      && (average >= (2 * k + 2) as real ==> r.stars[k] == FullStar)
      && ((2 * k + 1) as real <= average < (2 * k + 2) as real ==> r.stars[k] == HalfStar)
      && (average < (2 * k + 1) as real ==> r.stars[k] == rating.stars[k])
    ensures forall k :: 5 <= k < |rating.stars| ==> r.stars[k] == rating.stars[k]
  {
    if average > 0.0 then
      Rating(false, false, Some(average),
             seq(|rating.stars|, i requires 0 <= i < |rating.stars| =>
                   if i < 5 then StarFor(rating.stars[i], i, average) else rating.stars[i]))
    else
      rating.(starHidden := true, scoreHidden := true)
  }

  /** From unset stars, a larger average never shows less of any star. */
  lemma StarsMonotone(rating: Rating, a: real, b: real)
    requires |rating.stars| >= 5
    requires forall k :: 0 <= k < 5 ==> rating.stars[k] == EmptyStar
    requires a <= b
    ensures forall k :: 0 <= k < 5 ==>
      Halves(SetVoteStarImageUI(rating, a).stars[k]) <= Halves(SetVoteStarImageUI(rating, b).stars[k])
  {
  }

  /** Why `StarsMonotone` starts from empty stars: a star that already
      shows full keeps showing full below its half threshold, but turns
      half once the average reaches it, so a larger average can show less. */
  lemma StarsNotMonotoneFromFull()
    ensures var full := Rating(true, true, None, [FullStar, FullStar, FullStar, FullStar, FullStar]);
      && SetVoteStarImageUI(full, 0.5).stars[0] == FullStar
      && SetVoteStarImageUI(full, 1.5).stars[0] == HalfStar
  {
  }

  /** Total number of filled halves. */
  function HalvesShown(stars: seq<StarImage>): nat
    decreases |stars|
  {
    if |stars| == 0 then 0 else Halves(stars[0]) + HalvesShown(stars[1..])
  }

  function Clamp(x: int, hi: nat): nat {
    if x <= 0 then 0 else if x >= hi then hi else x
  }

  lemma {:induction false} HalvesShownStaircase(s: seq<StarImage>, f: int, k: nat)
    requires forall i :: 0 <= i < |s| ==> Halves(s[i]) == Clamp(f - 2 * (k + i), 2)
    ensures HalvesShown(s) == Clamp(f - 2 * k, 2 * |s|)
    decreases |s|
  {
    if |s| > 0 {
      HalvesShownStaircase(s[1..], f, k + 1);
    }
  }

  /** From unset stars, a positive average shows its whole part in half
      stars, capped at five full stars: the five stars rate out of ten. */
  lemma StarsShowRating(rating: Rating, average: real)
    requires |rating.stars| >= 5
    requires forall k :: 0 <= k < 5 ==> rating.stars[k] == EmptyStar
    requires average > 0.0
    ensures HalvesShown(SetVoteStarImageUI(rating, average).stars[..5]) == Clamp(average.Floor, 10)
  {
    var s := SetVoteStarImageUI(rating, average).stars[..5];
    forall i | 0 <= i < 5 ensures Halves(s[i]) == Clamp(average.Floor - 2 * i, 2) {
      assert s[i] == SetVoteStarImageUI(rating, average).stars[i];
    }
    HalvesShownStaircase(s, average.Floor, 0);
  }

  // ---------------------------------------------------------------------------
  // Catalog responses

  /** The episode-level detail record. `writerText` and `guestText` are the
      crew text for job "Writer" and the guest-star text the record
      computes; `airYear` is the year of `air_date` when that date parses. */
  datatype EpisodeDetail = EpisodeDetail(
    overview: Option<string>,
    writerText: string,
    guestText: string,
    voteAverage: real,
    seasonNumber: Option<int>,
    episodeNumber: Option<int>,
    name: Option<string>,
    airYear: Option<int>)

  /** The series-level detail record; `genreText` is the genre text it
      computes. */
  datatype SeriesDetail = SeriesDetail(createdBy: seq<string>, genres: seq<string>, genreText: string)

  /** A detail response: one of the two record kinds. */
  datatype TVResponse = Episode(episode: EpisodeDetail) | Series(series: SeriesDetail)

  /** All four parts of the translated title are present. */
  predicate HasTitleParts(v: DetailView, e: EpisodeDetail) {
    v.searchedTitle.Some? && e.seasonNumber.Some? && e.episodeNumber.Some? && e.name.Some?
  }

  function ComposeTitle(title: string, season: int, year: int, episode: int, name: string): string {
    title + (" - Season " + (IntToString(season) + (" (" + (IntToString(year)
      + (") Episode " + (IntToString(episode) + (" : " + name)))))))
  }

  /** The title text determines the season, year and episode it shows:
      none of the rendered numbers contains the space or parenthesis that
      follows it. */
  lemma ComposedTitleDeterminesNumbers(
    title: string, name: string, s1: int, y1: int, e1: int, s2: int, y2: int, e2: int)
    requires ComposeTitle(title, s1, y1, e1, name) == ComposeTitle(title, s2, y2, e2, name)
    ensures s1 == s2 && y1 == y2 && e1 == e2
  {
    var S1, Y1, E1 := IntToString(s1), IntToString(y1), IntToString(e1);
    var S2, Y2, E2 := IntToString(s2), IntToString(y2), IntToString(e2);
    IntToStringCharacters(s1); IntToStringCharacters(y1); IntToStringCharacters(e1);
    IntToStringCharacters(s2); IntToStringCharacters(y2); IntToStringCharacters(e2);
    var W1, W2 := E1 + (" : " + name), E2 + (" : " + name);
    var Z1, Z2 := Y1 + (") Episode " + W1), Y2 + (") Episode " + W2);
    var R1, R2 := S1 + (" (" + Z1), S2 + (" (" + Z2);
    CancelPrefix(title, " - Season " + R1, " - Season " + R2);
    CancelPrefix(" - Season ", R1, R2);
    assert " (" + Z1 == [' '] + ("(" + Z1) && " (" + Z2 == [' '] + ("(" + Z2);
    SplitAtDelimiter(S1, "(" + Z1, S2, "(" + Z2, ' ');
    CancelPrefix("(", Z1, Z2);
    assert ") Episode " + W1 == [')'] + (" Episode " + W1);
    assert ") Episode " + W2 == [')'] + (" Episode " + W2);
    SplitAtDelimiter(Y1, " Episode " + W1, Y2, " Episode " + W2, ')');
    CancelPrefix(" Episode ", W1, W2);
    assert " : " + name == [' '] + (": " + name);
    SplitAtDelimiter(E1, ": " + name, E2, ": " + name, ' ');
    IntToStringInjective(s1, s2);
    IntToStringInjective(y1, y2);
    IntToStringInjective(e1, e2);
  }

  /** The composed title opens with the searched title and the season and
      closes with the episode number and name. */
  lemma ComposeTitleShape(title: string, season: int, year: int, episode: int, name: string)
    ensures IsPrefix(title + " - Season " + IntToString(season), ComposeTitle(title, season, year, episode, name))
    ensures IsSuffix(") Episode " + IntToString(episode) + " : " + name, ComposeTitle(title, season, year, episode, name))
  {
    var S, Y, E := IntToString(season), IntToString(year), IntToString(episode);
    var head := title + " - Season " + S;
    var tail := ") Episode " + E + " : " + name;
    var t := ComposeTitle(title, season, year, episode, name);
    assert t == head + (" (" + Y) + tail;
  }

  /** `setTranslateTitleText`: with the searched title, season, episode and
      name all present, the title becomes their composition with the air
      year; otherwise nothing changes. The air date is force-unwrapped once
      all four are present. */
  function SetTranslateTitleText(v: DetailView, e: EpisodeDetail): (r: DetailView)
    requires HasTitleParts(v, e) ==> e.airYear.Some?
    ensures !HasTitleParts(v, e) ==> r == v
    ensures HasTitleParts(v, e) ==>
      r.title == ComposeTitle(v.searchedTitle.value, e.seasonNumber.value, e.airYear.value,
                              e.episodeNumber.value, e.name.value)
    ensures r == v.(title := r.title)
  {
    if HasTitleParts(v, e) then
      var t := ComposeTitle(v.searchedTitle.value, e.seasonNumber.value, e.airYear.value,
                            e.episodeNumber.value, e.name.value);
      v.(title := t)
    else
      v
  }

  /** Two episodes with the same name that both compose a title over the
      same searched title produce the same title text only when they agree
      on season, air year and episode number: the title identifies the
      episode. */
  lemma TranslatedTitleIdentifiesEpisode(v: DetailView, e1: EpisodeDetail, e2: EpisodeDetail)
    requires HasTitleParts(v, e1) && e1.airYear.Some?
    requires HasTitleParts(v, e2) && e2.airYear.Some?
    requires e1.name == e2.name
    requires SetTranslateTitleText(v, e1).title == SetTranslateTitleText(v, e2).title
    ensures e1.seasonNumber == e2.seasonNumber && e1.airYear == e2.airYear
    ensures e1.episodeNumber == e2.episodeNumber
  {
    ComposedTitleDeterminesNumbers(v.searchedTitle.value, e1.name.value,
      e1.seasonNumber.value, e1.airYear.value, e1.episodeNumber.value,
      e2.seasonNumber.value, e2.airYear.value, e2.episodeNumber.value);
  }

  /** The fields an episode response writes, as a view with only those. */
  predicate EpisodeWritesOnly(v: DetailView, r: DetailView) {
    r == v.(title := r.title, content := r.content, writer := r.writer, cast := r.cast, rating := r.rating)
  }

  /** `setTVUI`: an episode shows its overview, writer, guests, rating and
      translated title; a series shows its first creator and its genres.
      Each section is hidden exactly when its text (or list) is empty, and
      a hidden section keeps its old label text. */
  function SetTVUI(v: DetailView, response: TVResponse): (r: DetailView)
    requires response.Episode? ==> |v.rating.stars| >= 5
    requires response.Episode? && HasTitleParts(v, response.episode) ==> response.episode.airYear.Some?
    ensures response.Episode? ==>
      var e := response.episode;
      && r.content == Section(false, e.overview.GetOr(""))
      && (r.writer.hidden <==> |e.writerText| == 0)
      && (!r.writer.hidden ==> r.writer.text == e.writerText)
      && (r.cast.hidden <==> |e.guestText| == 0)
      && (!r.cast.hidden ==> r.cast.text == e.guestText)
      && (r.writer.hidden ==> r.writer.text == v.writer.text)
      && (r.cast.hidden ==> r.cast.text == v.cast.text)
      && r.rating == SetVoteStarImageUI(v.rating, e.voteAverage)
      && (r.rating.starHidden <==> e.voteAverage <= 0.0)
      && r.title == SetTranslateTitleText(v, e).title
      && EpisodeWritesOnly(v, r)
    ensures response.Series? ==>
      var s := response.series;
      && (r.creator.hidden <==> |s.createdBy| == 0)
      && (!r.creator.hidden ==> r.creator.text == s.createdBy[0])
      && (r.creator.hidden ==> r.creator.text == v.creator.text)
      && (r.genre.hidden <==> |s.genres| == 0)
      && (!r.genre.hidden ==> r.genre.text == s.genreText)
      && (r.genre.hidden ==> r.genre.text == v.genre.text)
      && r == v.(creator := r.creator, genre := r.genre)
    ensures |r.rating.stars| == |v.rating.stars|
  {
    match response
    case Episode(e) =>
      var shown := v.(content := Section(false, e.overview.GetOr("")),
                      writer := ShowIf(v.writer, |e.writerText| > 0, e.writerText),
                      cast := ShowIf(v.cast, |e.guestText| > 0, e.guestText));
      SetTranslateTitleText(shown.(rating := SetVoteStarImageUI(v.rating, e.voteAverage)), e)
    case Series(s) =>
      v.(creator := ShowIf(v.creator, |s.createdBy| > 0, if |s.createdBy| > 0 then s.createdBy[0] else ""),
         genre := ShowIf(v.genre, |s.genres| > 0, s.genreText))
  }

  /** The series and episode responses write disjoint parts of the view, so
      the order in which their callbacks run does not matter. */
  lemma DetailResponsesCommute(v: DetailView, s: SeriesDetail, e: EpisodeDetail)
    requires |v.rating.stars| >= 5
    requires HasTitleParts(v, e) ==> e.airYear.Some?
    ensures SetTVUI(SetTVUI(v, Series(s)), Episode(e)) == SetTVUI(SetTVUI(v, Episode(e)), Series(s))
  {
  }

  // ---------------------------------------------------------------------------
  // Lookup workflow

  /** One catalog search hit. */
  datatype SearchResult = SearchResult(id: Option<int>, name: Option<string>)

  /** The search callback's arguments: the success flag and the result
      list (absent when the request failed). */
  datatype SearchResponse = SearchResponse(success: bool, results: Option<seq<SearchResult>>)

  /** A detail request issued for a catalog id. */
  datatype DetailRequest = SeriesRequest(seriesId: int) | EpisodeRequest(episodeSeriesId: int)

  /** The view after a search response, and the detail requests it issued. */
  datatype LookupOutcome = LookupOutcome(view: DetailView, requests: seq<DetailRequest>)

  const MoreUrlPrefix: string := "https://www.themoviedb.org/tv/"
  const MoreUrlSuffix: string := "?language=ko-KR"

  /** The catalog page opened by the "more" button for a series id. */
  function MoreUrl(id: int): (url: string)
    ensures IsPrefix(MoreUrlPrefix, url)
    ensures |url| == |MoreUrlPrefix| + |IntToString(id)| + |MoreUrlSuffix|
    ensures url[|url| - |MoreUrlSuffix|..] == MoreUrlSuffix
  {
    MoreUrlPrefix + IntToString(id) + MoreUrlSuffix
  }

  /** Reads the series id back out of a "more" link. */
  function SeriesIdOfMoreUrl(url: string): Option<int> {
    if |url| >= |MoreUrlPrefix| + |MoreUrlSuffix| && IsPrefix(MoreUrlPrefix, url)
      && url[|url| - |MoreUrlSuffix|..] == MoreUrlSuffix
    then ParseInt(url[|MoreUrlPrefix|..|url| - |MoreUrlSuffix|])
    else None
  }

  /** The "more" link identifies its series: the id can be read back. */
  lemma MoreUrlRoundTrip(id: int)
    ensures SeriesIdOfMoreUrl(MoreUrl(id)) == Some(id)
  {
    var url := MoreUrl(id);
    assert url[|MoreUrlPrefix|..|url| - |MoreUrlSuffix|] == IntToString(id);
    IntToStringRoundTrip(id);
  }

  /** `viewDidLoad`: the local information is shown first; with a file, its
      file name is sent to the catalog search. */
  function ViewDidLoad(v: DetailView, data: Option<FileObject>, tracks: Option<seq<Track>>)
    : (r: (DetailView, Option<string>))
    ensures r.0 == InitialUI(v, data, tracks)
    ensures data.None? <==> r.1.None?
    ensures data.Some? ==> r.1 == Some(data.value.fileName)
  {
    (InitialUI(v, data, tracks), if data.Some? then Some(data.value.fileName) else None)
  }

  /** A search that succeeded with at least one hit. */
  predicate Found(response: SearchResponse)
    requires response.success ==> response.results.Some?
  {
    response.success && |response.results.value| > 0
  }

  /** The search callback. A failure or an empty result list falls back to
      the local information and requests nothing. Otherwise the first hit
      is taken: its id (force-unwrapped) feeds a series request and an
      episode request and the "more" link, and its name is remembered for
      the translated title. */
  function OnSearchResponse(
    v: DetailView, data: FileObject, tracks: Option<seq<Track>>, response: SearchResponse)
    : (o: LookupOutcome)
    requires response.success ==> response.results.Some?
    requires Found(response) ==> response.results.value[0].id.Some?
    ensures !Found(response) ==> o.requests == [] && o.view == InitialUI(v, Some(data), tracks)
    ensures Found(response) ==>
      var first := response.results.value[0];
      && o.requests == [SeriesRequest(first.id.value), EpisodeRequest(first.id.value)]
      && o.view == v.(searchedTitle := first.name, moreHidden := false,
                      moreURL := Some(MoreUrl(first.id.value)))
  {
    if Found(response) then
      var first := response.results.value[0];
      var id := first.id.value;
      LookupOutcome(
        v.(searchedTitle := first.name, moreHidden := false, moreURL := Some(MoreUrl(id))),
        [SeriesRequest(id), EpisodeRequest(id)])
    else
      LookupOutcome(InitialUI(v, Some(data), tracks), [])
  }

  /** A search that finds nothing leaves the view exactly as it was after
      loading, provided the player reports the same track information when
      the callback runs as it did when the view loaded. */
  lemma NoMatchKeepsLocalView(
    v: DetailView, data: FileObject, tracks: Option<seq<Track>>, response: SearchResponse)
    requires response.success ==> response.results.Some?
    requires !Found(response)
    ensures OnSearchResponse(ViewDidLoad(v, Some(data), tracks).0, data, tracks, response).view
      == ViewDidLoad(v, Some(data), tracks).0
    ensures OnSearchResponse(ViewDidLoad(v, Some(data), tracks).0, data, tracks, response).requests == []
  {
    InitialUIIdempotent(v, Some(data), tracks);
  }

  /** A detail callback (series or episode). The payload is
      force-unwrapped and the success flag is not consulted: a reported
      failure that still delivers a payload is applied like a success.
      Neither callback touches the lookup's own fields. */
  function OnDetailResponse(v: DetailView, success: bool, responseData: Option<TVResponse>): (r: DetailView)
    requires responseData.Some?
    requires responseData.value.Episode? ==> |v.rating.stars| >= 5
    requires responseData.value.Episode? && HasTitleParts(v, responseData.value.episode) ==>
      responseData.value.episode.airYear.Some?
    ensures r == SetTVUI(v, responseData.value)
    ensures r.searchedTitle == v.searchedTitle && r.moreHidden == v.moreHidden && r.moreURL == v.moreURL
    ensures r.videoTrack == v.videoTrack && r.audioTrack == v.audioTrack
    ensures |r.rating.stars| == |v.rating.stars|
  {
    SetTVUI(v, responseData.value)
  }

  /** After a successful search, the view reached once both detail
      callbacks have run is the same in either order, whatever success flags
      they report, and it carries the first hit's name and link. */
  lemma LookupCompletesInAnyOrder(
    v: DetailView, data: FileObject, tracks: Option<seq<Track>>, response: SearchResponse,
    s: SeriesDetail, e: EpisodeDetail, ok1: bool, ok2: bool, ok3: bool, ok4: bool)
    requires |v.rating.stars| >= 5
    requires response.success ==> response.results.Some?
    requires Found(response) && response.results.value[0].id.Some?
    requires
      (response.results.value[0].name.Some? && e.seasonNumber.Some? && e.episodeNumber.Some? && e.name.Some?)
      ==> e.airYear.Some?
    ensures var w := OnSearchResponse(v, data, tracks, response).view;
      var seriesFirst := OnDetailResponse(OnDetailResponse(w, ok1, Some(Series(s))), ok2, Some(Episode(e)));
      var episodeFirst := OnDetailResponse(OnDetailResponse(w, ok3, Some(Episode(e))), ok4, Some(Series(s)));
      && seriesFirst == episodeFirst
      && seriesFirst.searchedTitle == response.results.value[0].name
      && seriesFirst.moreURL == Some(MoreUrl(response.results.value[0].id.value))
  {
    var w := OnSearchResponse(v, data, tracks, response).view;
    DetailResponsesCommute(w, s, e);
  }
}
