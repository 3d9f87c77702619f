/** Media routes: the paths printed for media items and the items read back from them. */
module Routes {
  import opened Prelude
  import opened Text
  import opened PercentEncoding
  import opened UrlPath
  import Decimal

  // ---------------------------------------------------------------- items

  /** A JavaScript number, of which only the whole ones appear in a path. */
  datatype Number = Whole(value: int) | NotWhole

  datatype Raw = Raw(
    routeSeriesResourceId: string, continueSeasonId: Option<string>, continueSeasonNumber: Option<Number>,
    continueEpisodeId: Option<string>, continueEpisodeNumber: Option<Number>)

  const NO_RAW := Raw("", None, None, None, None)

  /** The fields of a media item that routes use; an absent text is the empty one. */
  datatype MediaItem = MediaItem(
    id: string, titleId: Option<string>, mediaType: string, resourceId: string, sourceAddonId: string, imdb: string,
    seasonNumber: Option<Number>, episodeNumber: Option<Number>, raw: Raw)

  datatype Context = Context(seasonNumber: Number, episodeNumber: Option<Number>)

  /** How numbers are written in a template and read by `Number`; `read` is None unless the value is an integer. */
  datatype Numerals = Numerals(show: int -> string, read: string -> Option<int>)

  predicate Numeral(s: string) {
    && s != "" && s[0] != '.'
    && forall i | 0 <= i < |s| :: IsDigit(s[i]) || s[i] in "-+e."
  }

  ghost predicate Faithful(numerals: Numerals) {
    forall n :: numerals.read(numerals.show(n)) == Some(n) && Numeral(numerals.show(n))
  }

  const DECIMAL := Numerals(Decimal.Show, Decimal.Read)

  lemma DecimalIsFaithful()
    ensures Faithful(DECIMAL)
  {
    forall n ensures DECIMAL.read(DECIMAL.show(n)) == Some(n) && Numeral(DECIMAL.show(n)) {
      Decimal.ReadShow(n);
    }
  }

  // ---------------------------------------------------------------- identifiers

  function ImdbRouteId(item: MediaItem): string {
    var value := Trim(item.imdb);
    if IsImdbTitle(value) then Lower(value) else ""
  }

  /** Two items with IMDb titles have the same IMDb route id if and only if the titles agree up to case and outer white
      space; an item without one has none. */
  lemma ImdbIdsAgree(a: MediaItem, b: MediaItem)
    ensures ImdbRouteId(a) != "" <==> IsImdbTitle(Trim(a.imdb))
    ensures IsImdbTitle(Trim(a.imdb)) && IsImdbTitle(Trim(b.imdb)) ==>
              (ImdbRouteId(a) == ImdbRouteId(b) <==> Lower(Trim(a.imdb)) == Lower(Trim(b.imdb)))
  {
  }

  /** What stands before the last `:` and a run of digits, if the text ends so. */
  function BeforeNumber(s: string): Option<string> {
    if s == "" then None
    else if !IsDigit(s[|s| - 1]) then None
    else if |s| > 1 && s[|s| - 2] == ':' then Some(s[..|s| - 2])
    else BeforeNumber(s[..|s| - 1])
  }

  /** The group of the pattern `^(.*):\d+:\d+$`; the empty text where it does not match. */
  function EpisodeSeries(id: string): string {
    var episode := BeforeNumber(id);
    var season := if episode.Some? then BeforeNumber(episode.value) else None;
    if season.Some? && forall i | 0 <= i < |season.value| :: !IsLineTerminator(season.value[i]) then season.value else ""
  }

  lemma {:induction false} NumberIsCut(before: string, digits: string)
    requires digits != "" && AllDigits(digits)
    ensures BeforeNumber(before + ":" + digits) == Some(before)
  {
    var s := before + ":" + digits;
    assert s[|s| - 1] == digits[|digits| - 1];
    if |digits| == 1 {
      assert s[|s| - 2] == ':' && s[..|s| - 2] == before;
    } else {
      var shorter := digits[..|digits| - 1];
      assert s[..|s| - 1] == before + ":" + shorter;
      assert s[|s| - 2] == shorter[|shorter| - 1];
      NumberIsCut(before, shorter);
    }
  }

  /** An episode's own id, as the parser makes it, names its series. */
  lemma EpisodeIdNamesSeries(series: string, season: nat, episode: nat)
    requires forall i | 0 <= i < |series| :: !IsLineTerminator(series[i])
    ensures EpisodeSeries(series + ":" + Decimal.Show(season) + ":" + Decimal.Show(episode)) == series
  {
    Decimal.NatOfShow(season);
    Decimal.NatOfShow(episode);
    NumberIsCut(series + ":" + Decimal.Show(season), Decimal.Show(episode));
    NumberIsCut(series, Decimal.Show(season));
  }

  function SeriesRouteId(item: MediaItem): string {
    if ImdbRouteId(item) != "" then ImdbRouteId(item)
    else if Trim(item.raw.routeSeriesResourceId) != "" then Trim(item.raw.routeSeriesResourceId)
    else if item.mediaType == "series" then item.id
    else if EpisodeSeries(item.id) != "" then EpisodeSeries(item.id)
    else item.id
  }

  function MediaResourceId(item: MediaItem): string {
    if Trim(item.resourceId) != "" then Trim(item.resourceId) else item.id
  }

  // ---------------------------------------------------------------- what a path names

  datatype Route =
    | Season(series: string, season: int, episode: Option<int>)
    | Channel(addon: string, resource: string)
    | Title(mediaType: string, id: string)

  function WholeOf(n: Option<Number>): Option<int> {
    if n.Some? && n.value.Whole? then Some(n.value.value) else None
  }

  function SeasonOf(item: MediaItem, context: Option<Context>): Option<Number> {
    if context.Some? then Some(context.value.seasonNumber)
    else if item.raw.continueSeasonNumber.Some? then item.raw.continueSeasonNumber
    else item.seasonNumber
  }

  function EpisodeOf(item: MediaItem, context: Option<Context>): Option<Number> {
    if context.Some? then context.value.episodeNumber
    else if item.raw.continueEpisodeNumber.Some? then item.raw.continueEpisodeNumber
    else item.episodeNumber
  }

  predicate IsSeriesLike(item: MediaItem) {
    item.mediaType == "series" || item.mediaType == "episode"
  }

  /** The route of an item: its ids, and a season and episode where they are whole numbers. */
  function RouteOf(item: MediaItem, context: Option<Context>): Route {
    if IsSeriesLike(item) then
      var season := WholeOf(SeasonOf(item, context));
      if season.Some? then Season(SeriesRouteId(item), season.value, WholeOf(EpisodeOf(item, context)))
      else Title("series", SeriesRouteId(item))
    else if item.mediaType == "tv" && item.sourceAddonId != "" then Channel(item.sourceAddonId, MediaResourceId(item))
    else if item.mediaType == "movie" && ImdbRouteId(item) != "" then Title("movie", ImdbRouteId(item))
    else Title(item.mediaType, item.id)
  }

  function RouteSegments(numerals: Numerals, route: Route): seq<string> {
    match route
    case Season(series, season, episode) =>
      ["media", "series", EncodeRouteId(series), "season", numerals.show(season)]
      + (if episode.Some? then ["episode", numerals.show(episode.value)] else [])
    case Channel(addon, resource) => ["media", "tv", EncodeRouteId(addon), EncodeRouteId(resource)]
    case Title(mediaType, id) => ["media", Encode(mediaType), EncodeRouteId(id)]
  }

  /** The URL of an item. */
  function Url(numerals: Numerals, item: MediaItem, context: Option<Context>): string {
    Path(RouteSegments(numerals, RouteOf(item, context)))
  }

  // ---------------------------------------------------------------- reading a path

  function DecodeAll(segments: seq<string>): (r: seq<string>)
    ensures |r| == |segments| && forall i | 0 <= i < |r| :: r[i] == DecodeRouteSegment(segments[i])
  {
    seq(|segments|, i requires 0 <= i < |segments| => DecodeRouteSegment(segments[i]))
  }

  function ReadSeason(numerals: Numerals, s: seq<string>): Option<Route>
    requires |s| >= 4
  {
    var hasEpisode := |s| == 7 && s[5] == "episode";
    var season := if |s| > 4 then numerals.read(s[4]) else None;
    var episode := if hasEpisode then numerals.read(s[6]) else None;
    if s[2] == "" || (|s| != 5 && !hasEpisode) || season.None? || (hasEpisode && episode.None?) then None
    else Some(Season(s[2], season.value, episode))
  }

  /** The route named by decoded segments. */
  function ReadRoute(numerals: Numerals, s: seq<string>): Option<Route> {
    if |s| < 3 || s[0] != "media" then None
    else if s[1] == "series" && |s| > 3 && s[3] == "season" then ReadSeason(numerals, s)
    else if s[1] == "tv" && |s| == 4 then (if s[2] == "" || s[3] == "" then None else Some(Channel(s[2], s[3])))
    else if |s| != 3 || s[1] == "" || s[2] == "" then None
    else Some(Title(s[1], s[2]))
  }

  function RouteOfPath(numerals: Numerals, path: string): Option<Route> {
    ReadRoute(numerals, DecodeAll(Filled(Split(path))))
  }

  predicate IsHex(c: char) {
    IsDigit(c) || 'a' <= c <= 'f' || 'A' <= c <= 'F'
  }

  predicate IsUuid(s: string) {
    && |s| == 36
    && (forall i | 0 <= i < 36 :: if i == 8 || i == 13 || i == 18 || i == 23 then s[i] == '-' else IsHex(s[i]))
    && '1' <= s[14] <= '5' && s[19] in "89abAB"
  }

  function TitleIdOf(id: string): Option<string> {
    if IsUuid(id) then Some(id) else None
  }

  function StoredOf(stored: Option<MediaItem>, mediaType: string): Option<MediaItem> {
    if stored.Some? && stored.value.mediaType == mediaType then stored else None
  }

  function SeasonItem(numerals: Numerals, series: string, season: int, episode: Option<int>, history: Option<MediaItem>): MediaItem {
    var mediaType := if episode.Some? then "episode" else "series";
    var stored := StoredOf(history, mediaType);
    var matches :=
      && stored.Some?
      && SeasonOf(stored.value, None) == Some(Whole(season))
      && EpisodeOf(stored.value, None) == (if episode.Some? then Some(Whole(episode.value)) else None);
    var item :=
      if stored.Some? then stored.value
      else MediaItem(
        if episode.Some? then series + ":" + numerals.show(season) + ":" + numerals.show(episode.value) else series,
        if episode.None? then TitleIdOf(series) else None, mediaType, "", "", "", None, None, NO_RAW);
    item.(seasonNumber := Some(Whole(season)),
          episodeNumber := if episode.Some? then Some(Whole(episode.value)) else item.episodeNumber,
          raw := Raw(series,
                     if matches then item.raw.continueSeasonId else None, Some(Whole(season)),
                     if matches then item.raw.continueEpisodeId else None,
                     if episode.Some? then Some(Whole(episode.value)) else None))
  }

  /** The item that a route stands for, given the one kept in the browser history. */
  function ItemOf(numerals: Numerals, route: Route, history: Option<MediaItem>): MediaItem {
    match route
    case Season(series, season, episode) => SeasonItem(numerals, series, season, episode, history)
    case Channel(addon, resource) =>
      var stored := StoredOf(history, "tv");
      if stored.Some? && stored.value.sourceAddonId == addon && MediaResourceId(stored.value) == resource then stored.value
      else MediaItem(resource, None, "tv", resource, addon, "", None, None, NO_RAW)
    case Title(mediaType, id) =>
      var stored := StoredOf(history, mediaType);
      if stored.Some? then stored.value else MediaItem(id, TitleIdOf(id), mediaType, "", "", "", None, None, NO_RAW)
  }

  /** The item read from a path. */
  function ItemOfPath(numerals: Numerals, path: string, history: Option<MediaItem>): Option<MediaItem> {
    var route := RouteOfPath(numerals, path);
    if route.Some? then Some(ItemOf(numerals, route.value, history)) else None
  }

  // ---------------------------------------------------------------- round trips

  /** Every text in the route can stand as a path segment. */
  predicate Proper(route: Route) {
    match route
    case Season(series, _, _) => Nameable(series)
    case Channel(addon, resource) => Nameable(addon) && Nameable(resource)
    case Title(mediaType, id) => Nameable(mediaType) && Nameable(id)
  }

  /** A plain segment that decodes to a name. */
  predicate Spells(segment: string, name: string) {
    Plain(segment) && DecodeRouteSegment(segment) == name
  }

  predicate SpellAll(segments: seq<string>, names: seq<string>) {
    |segments| == |names| && forall i | 0 <= i < |segments| :: Spells(segments[i], names[i])
  }

  lemma SpellFive(a: string, b: string, c: string, name: string, d: string, e: string)
    requires Spells(a, a) && Spells(b, b) && Spells(c, name) && Spells(d, d) && Spells(e, e)
    ensures SpellAll([a, b, c, d, e], [a, b, name, d, e])
  {
  }

  lemma NumeralSpells(s: string)
    requires Numeral(s)
    ensures Spells(s, s)
  {
    assert forall i | 0 <= i < |s| :: s[i] != '%' && s[i] != '/';
    DecodeUnescaped(s);
  }

  predicate Word(s: string) {
    s != "" && forall i | 0 <= i < |s| :: 'a' <= s[i] <= 'z'
  }

  lemma WordSpells(s: string)
    requires Word(s)
    ensures Spells(s, s)
  {
    assert forall i | 0 <= i < |s| :: s[i] != '%' && s[i] != '/';
    assert s[0] != '.' && s[0] != '%';
    DecodeUnescaped(s);
  }

  lemma MediaSpells()
    ensures Spells("media", "media")
  {
    WordSpells("media");
  }

  lemma SeriesSpells()
    ensures Spells("series", "series")
  {
    WordSpells("series");
  }

  lemma NameSpells(s: string)
    requires Nameable(s)
    ensures Spells(EncodeRouteId(s), s) && Spells(Encode(s), s)
  {
    EncodedIsPlain(s);
    DecodeUndoesEncode(s);
  }

  /** The segments before they are encoded. */
  function Names(numerals: Numerals, route: Route): seq<string> {
    match route
    case Season(series, season, episode) =>
      ["media", "series", series, "season", numerals.show(season)]
      + (if episode.Some? then ["episode", numerals.show(episode.value)] else [])
    case Channel(addon, resource) => ["media", "tv", addon, resource]
    case Title(mediaType, id) => ["media", mediaType, id]
  }

  lemma ShownIsRead(numerals: Numerals, n: int)
    requires Faithful(numerals)
    ensures numerals.read(numerals.show(n)) == Some(n) && Numeral(numerals.show(n))
  {
  }

  lemma SeasonSpells(numerals: Numerals, series: string, season: int)
    requires Faithful(numerals) && Nameable(series)
    ensures SpellAll(["media", "series", EncodeRouteId(series), "season", numerals.show(season)],
                     ["media", "series", series, "season", numerals.show(season)])
  {
    ShownIsRead(numerals, season);
    NumeralSpells(numerals.show(season));
    NameSpells(series);
    MediaSpells();
    SeriesSpells();
    WordSpells("season");
    SpellFive("media", "series", EncodeRouteId(series), series, "season", numerals.show(season));
  }

  lemma EpisodeSpells(numerals: Numerals, episode: int)
    requires Faithful(numerals)
    ensures SpellAll(["episode", numerals.show(episode)], ["episode", numerals.show(episode)])
  {
    ShownIsRead(numerals, episode);
    NumeralSpells(numerals.show(episode));
    WordSpells("episode");
  }

  lemma ChannelSpells(addon: string, resource: string)
    requires Nameable(addon) && Nameable(resource)
    ensures SpellAll(["media", "tv", EncodeRouteId(addon), EncodeRouteId(resource)], ["media", "tv", addon, resource])
  {
    NameSpells(addon);
    NameSpells(resource);
    MediaSpells();
    WordSpells("tv");
  }

  lemma TitleSpells(mediaType: string, id: string)
    requires Nameable(mediaType) && Nameable(id)
    ensures SpellAll(["media", Encode(mediaType), EncodeRouteId(id)], ["media", mediaType, id])
  {
    NameSpells(mediaType);
    NameSpells(id);
    MediaSpells();
  }

  lemma RouteSpells(numerals: Numerals, route: Route)
    requires Faithful(numerals) && Proper(route)
    ensures SpellAll(RouteSegments(numerals, route), Names(numerals, route))
  {
    match route
    case Season(series, season, episode) =>
      SeasonSpells(numerals, series, season);
      if episode.Some? {
        EpisodeSpells(numerals, episode.value);
      }
    case Channel(addon, resource) => ChannelSpells(addon, resource);
    case Title(mediaType, id) => TitleSpells(mediaType, id);
  }

  lemma SpelledIsRead(segments: seq<string>, names: seq<string>)
    requires SpellAll(segments, names)
    ensures AllPlain(segments) && DecodeAll(segments) == names
  {
    assert forall i | 0 <= i < |segments| :: Spells(segments[i], names[i]);
  }

  lemma NamesAreRead(numerals: Numerals, route: Route)
    requires Faithful(numerals) && Proper(route)
    ensures ReadRoute(numerals, Names(numerals, route)) == Some(route)
  {
    if route.Season? {
      ShownIsRead(numerals, route.season);
      if route.episode.Some? {
        ShownIsRead(numerals, route.episode.value);
      }
    }
  }

  /** The browser keeps the printed path as it is, and reading it recovers the ids, the season and the episode. */
  lemma PathNamesRoute(numerals: Numerals, route: Route)
    requires Faithful(numerals) && Proper(route)
    ensures var path := Path(RouteSegments(numerals, route));
            BrowserPath(path) == path && RouteOfPath(numerals, path) == Some(route)
  {
    RouteSpells(numerals, route);
    SpelledIsRead(RouteSegments(numerals, route), Names(numerals, route));
    PlainPathIsKept(RouteSegments(numerals, route));
    NamesAreRead(numerals, route);
  }

  // ---------------------------------------------------------------- different routes have different paths

  lemma PathIsInjective(a: seq<string>, b: seq<string>)
    requires forall i | 0 <= i < |a| :: NoSlash(a[i])
    requires forall i | 0 <= i < |b| :: NoSlash(b[i])
    ensures Path(a) == Path(b) ==> a == b
  {
    SplitPath(a);
    SplitPath(b);
    assert ([""] + a)[1..] == a && ([""] + b)[1..] == b;
  }

  lemma EncodedNamesAreSlashFree(s: string)
    ensures NoSlash(Encode(s)) && NoSlash(EncodeRouteId(s))
  {
    EncodedHasNoSlash(s);
    RestoreIsAligned(s);
  }

  lemma NumeralIsSlashFree(numerals: Numerals, n: int)
    requires Faithful(numerals)
    ensures NoSlash(numerals.show(n))
  {
    ShownIsRead(numerals, n);
    var s := numerals.show(n);
    assert forall i | 0 <= i < |s| :: s[i] != '/';
  }

  lemma SegmentsAreSlashFree(numerals: Numerals, route: Route)
    requires Faithful(numerals)
    ensures forall i | 0 <= i < |RouteSegments(numerals, route)| :: NoSlash(RouteSegments(numerals, route)[i])
  {
    match route
    case Season(series, season, episode) =>
      EncodedNamesAreSlashFree(series);
      NumeralIsSlashFree(numerals, season);
      if episode.Some? {
        NumeralIsSlashFree(numerals, episode.value);
      }
    case Channel(addon, resource) =>
      EncodedNamesAreSlashFree(addon);
      EncodedNamesAreSlashFree(resource);
    case Title(mediaType, id) =>
      EncodedNamesAreSlashFree(mediaType);
      EncodedNamesAreSlashFree(id);
  }

  lemma SameNames(a: string, b: string)
    ensures Encode(a) == Encode(b) ==> a == b
    ensures EncodeRouteId(a) == EncodeRouteId(b) ==> a == b
  {
    DecodeUndoesEncode(a);
    DecodeUndoesEncode(b);
  }

  lemma SameNumbers(numerals: Numerals, a: int, b: int)
    requires Faithful(numerals)
    ensures numerals.show(a) == numerals.show(b) ==> a == b
  {
    ShownIsRead(numerals, a);
    ShownIsRead(numerals, b);
  }

  lemma SegmentsAreInjective(numerals: Numerals, a: Route, b: Route)
    requires Faithful(numerals) && RouteSegments(numerals, a) == RouteSegments(numerals, b)
    ensures a == b
  {
    var s, t := RouteSegments(numerals, a), RouteSegments(numerals, b);
    assert |s| == |t| && s[1] == t[1] && s[2] == t[2];
    match a
    case Season(series, season, episode) =>
      assert b.Season?;
      assert s[4] == t[4];
      SameNames(series, b.series);
      SameNumbers(numerals, season, b.season);
      if episode.Some? {
        assert s[6] == t[6];
        SameNumbers(numerals, episode.value, b.episode.value);
      }
    case Channel(addon, resource) =>
      assert b.Channel?;
      assert s[3] == t[3];
      SameNames(addon, b.addon);
      SameNames(resource, b.resource);
    case Title(mediaType, id) =>
      assert b.Title?;
      SameNames(mediaType, b.mediaType);
      SameNames(id, b.id);
  }

  /** Printed paths are equal exactly for equal routes, whatever texts they name. */
  lemma PathsDiffer(numerals: Numerals, a: Route, b: Route)
    requires Faithful(numerals)
    ensures Path(RouteSegments(numerals, a)) == Path(RouteSegments(numerals, b)) <==> a == b
  {
    SegmentsAreSlashFree(numerals, a);
    SegmentsAreSlashFree(numerals, b);
    PathIsInjective(RouteSegments(numerals, a), RouteSegments(numerals, b));
    if RouteSegments(numerals, a) == RouteSegments(numerals, b) {
      SegmentsAreInjective(numerals, a, b);
    }
  }

  // ---------------------------------------------------------------- print, parse, print

  function EpisodeId(numerals: Numerals, series: string, season: int, episode: int): string {
    series + ":" + numerals.show(season) + ":" + numerals.show(episode)
  }

  /** A text that trimming leaves alone, or leaves nothing of. */
  predicate TrimmedOrBlank(s: string) {
    Trim(s) == s || Trim(s) == ""
  }

  /** The texts that the code trims on the way back survive: they are trimmed, or so blank that the code looks elsewhere
      and finds them there. */
  predicate SurvivesTrim(numerals: Numerals, route: Route) {
    match route
    case Season(series, season, None) => TrimmedOrBlank(series)
    case Season(series, season, Some(episode)) =>
      Trim(series) == series || (Trim(series) == "" && EpisodeSeries(EpisodeId(numerals, series, season, episode)) == series)
    case Channel(_, resource) => TrimmedOrBlank(resource)
    case Title(_, _) => true
  }

  lemma NothingTrimmed()
    ensures Trim("") == ""
  {
  }

  lemma EpisodeHasRoute(numerals: Numerals, series: string, season: int, episode: int)
    requires series != ""
    ensures var route := Season(series, season, Some(episode));
            RouteOf(ItemOf(numerals, route, None), None) == route <==> SurvivesTrim(numerals, route)
  {
    NothingTrimmed();
    var route := Season(series, season, Some(episode));
    var back := ItemOf(numerals, route, None);
    assert ImdbRouteId(back) == "";
    assert back.id == EpisodeId(numerals, series, season, episode) && |back.id| > |series|;
    assert RouteOf(back, None) == Season(SeriesRouteId(back), season, Some(episode));
  }

  lemma ItemHasRoute(numerals: Numerals, item: MediaItem, context: Option<Context>)
    requires Proper(RouteOf(item, context))
    ensures RouteOf(ItemOf(numerals, RouteOf(item, context), None), None) == RouteOf(item, context)
            <==> SurvivesTrim(numerals, RouteOf(item, context))
  {
    NothingTrimmed();
    var route := RouteOf(item, context);
    if route.Season? && route.episode.Some? {
      EpisodeHasRoute(numerals, route.series, route.season, route.episode.value);
    } else {
      var back := ItemOf(numerals, route, None);
      assert back.imdb == "";
      assert ImdbRouteId(back) == "";
    }
  }

  /** For every item whose route ids can stand as segments, the printed path is read, with no stored item, as some item.
      It has the same route, and printing it gives the same path, if and only if the texts survive trimming. */
  lemma {:induction false} PrintParsePrint(numerals: Numerals, item: MediaItem, context: Option<Context>)
    requires Faithful(numerals) && Proper(RouteOf(item, context))
    ensures var path := Url(numerals, item, context);
            var back := ItemOfPath(numerals, BrowserPath(path), None);
            && back.Some?
            && (RouteOf(back.value, None) == RouteOf(item, context) <==> SurvivesTrim(numerals, RouteOf(item, context)))
            && (Url(numerals, back.value, None) == path <==> SurvivesTrim(numerals, RouteOf(item, context)))
  {
    var route := RouteOf(item, context);
    PathNamesRoute(numerals, route);
    ItemHasRoute(numerals, item, context);
    PathsDiffer(numerals, RouteOf(ItemOf(numerals, route, None), None), route);
  }

  /** Trimmed ids survive. */
  lemma TrimmedSurvives(numerals: Numerals, route: Route)
    requires match route
             case Season(series, _, _) => Trim(series) == series
             case Channel(_, resource) => Trim(resource) == resource
             case Title(_, _) => true
    ensures SurvivesTrim(numerals, route)
  {
  }

  /** With no resource id, a channel's own id comes back trimmed. */
  lemma ChannelIdIsTrimmed(numerals: Numerals, item: MediaItem)
    requires Faithful(numerals) && Proper(RouteOf(item, None))
    requires item.mediaType == "tv" && item.sourceAddonId != "" && item.resourceId == "" && Trim(item.id) != ""
    ensures var back := ItemOfPath(numerals, BrowserPath(Url(numerals, item, None)), None);
            && RouteOf(item, None) == Channel(item.sourceAddonId, item.id)
            && back.Some? && RouteOf(back.value, None) == Channel(item.sourceAddonId, Trim(item.id))
  {
    NothingTrimmed();
    PathNamesRoute(numerals, RouteOf(item, None));
  }

  lemma SpaceIsTrimmed(id: string)
    requires id == " x"
    ensures Trim(id) == "x" && Nameable(id)
  {
    assert id[1..] == "x" && |id| == 2;
    assert TrimStart(id) == TrimStart(id[1..]);
    assert TrimStart(id[1..]) == id[1..];
    assert TrimEnd(id[1..]) == id[1..];
  }

  /** A channel whose id is " x" is read back as the channel "x". */
  lemma UntrimmedIdMoves(numerals: Numerals, item: MediaItem)
    requires Faithful(numerals)
    requires item.id == " x" && item.mediaType == "tv" && item.sourceAddonId == "addon" && item.resourceId == ""
    ensures var back := ItemOfPath(numerals, BrowserPath(Url(numerals, item, None)), None);
            back.Some? && RouteOf(back.value, None) != RouteOf(item, None)
  {
    NothingTrimmed();
    SpaceIsTrimmed(item.id);
    assert Nameable(item.sourceAddonId);
    assert Proper(RouteOf(item, None));
    ChannelIdIsTrimmed(numerals, item);
  }

  /** A route read from whatever path a browser shows names only what can stand as a segment. */
  lemma ReadRouteIsProper(numerals: Numerals, path: string)
    ensures var route := RouteOfPath(numerals, BrowserPath(path)); route.Some? ==> Proper(route.value)
  {
    BrowserSegmentsArePlain(path);
    var segments := Filled(Split(BrowserPath(path)));
    var names := DecodeAll(segments);
    forall i | 0 <= i < |names| ensures names[i] != "." && names[i] != ".." {
      assert Plain(segments[i]);
      PlainIsNoDot(segments[i]);
    }
  }

  /** A printed route is read back if and only if its texts are neither empty nor dot segments. */
  lemma RouteIsReadBack(numerals: Numerals, route: Route)
    requires Faithful(numerals)
    ensures RouteOfPath(numerals, BrowserPath(Path(RouteSegments(numerals, route)))) == Some(route) <==> Proper(route)
  {
    ReadRouteIsProper(numerals, Path(RouteSegments(numerals, route)));
    if Proper(route) {
      PathNamesRoute(numerals, route);
    }
  }

  /** Whatever path is entered, the route it is read as has a canonical path that is read as the same route. */
  lemma {:induction false} EnteredPathHasCanonicalForm(numerals: Numerals, path: string)
    requires Faithful(numerals)
    ensures var route := RouteOfPath(numerals, BrowserPath(path));
            route.Some? ==> RouteOfPath(numerals, BrowserPath(Path(RouteSegments(numerals, route.value)))) == route
  {
    ReadRouteIsProper(numerals, path);
    var route := RouteOfPath(numerals, BrowserPath(path));
    if route.Some? {
      RouteIsReadBack(numerals, route.value);
    }
  }

  // ---------------------------------------------------------------- reloading

  /** A series item with a whole season and a whole episode number, whose `continueEpisodeNumber` is a number but not a
      whole one. It names no episode, and the parser removes what kept it from naming one. */
  predicate StaleEpisode(item: MediaItem) {
    && item.mediaType == "series" && WholeOf(SeasonOf(item, None)).Some?
    && item.raw.continueEpisodeNumber == Some(NotWhole) && WholeOf(item.episodeNumber).Some?
  }

  /** The parser takes the stored item for the route's own kind. */
  predicate TakesStored(item: MediaItem, route: Route)
    requires route.Season?
  {
    item.mediaType == (if route.episode.Some? then "episode" else "series")
  }

  predicate ReloadSafe(numerals: Numerals, item: MediaItem) {
    var route := RouteOf(item, None);
    route.Season? ==>
      if TakesStored(item, route) then TrimmedOrBlank(route.series) && !StaleEpisode(item) else SurvivesTrim(numerals, route)
  }

  lemma ImdbIdIsTrimmed(item: MediaItem)
    ensures Trim(ImdbRouteId(item)) == ImdbRouteId(item)
  {
    var value := Trim(item.imdb);
    var id := ImdbRouteId(item);
    if id != "" {
      assert IsDigit(value[2..][|value| - 3]);
      assert id[|id| - 1] == LowerChar(value[|value| - 1]);
      assert Lower(value[..2])[0] == 't' && id[0] == LowerChar(value[0]);
    }
    TrimmedStays(id);
  }

  /** The series id is trimmed where it comes from the IMDb id or from the configured one. */
  lemma SeriesIsTrimmed(item: MediaItem)
    requires ImdbRouteId(item) != "" || Trim(item.raw.routeSeriesResourceId) != ""
    ensures Trim(SeriesRouteId(item)) == SeriesRouteId(item)
  {
    ImdbIdIsTrimmed(item);
    TrimmedEnds(item.raw.routeSeriesResourceId);
    TrimmedStays(Trim(item.raw.routeSeriesResourceId));
  }

  lemma StoredSeason(numerals: Numerals, item: MediaItem)
    requires var route := RouteOf(item, None); route.Season? && Proper(route) && TakesStored(item, route)
    ensures var route := RouteOf(item, None);
            var back := ItemOf(numerals, route, Some(item));
            && RouteOf(back, None).Season? && RouteOf(back, None).season == route.season
            && (RouteOf(back, None).series == route.series <==> TrimmedOrBlank(route.series))
            && (RouteOf(back, None).episode == route.episode <==> !StaleEpisode(item))
  {
    NothingTrimmed();
    var route := RouteOf(item, None);
    var back := ItemOf(numerals, route, Some(item));
    assert ImdbRouteId(back) == ImdbRouteId(item);
    if ImdbRouteId(item) != "" || Trim(item.raw.routeSeriesResourceId) != "" {
      SeriesIsTrimmed(item);
    }
  }

  /** An item kept in the history while its own path is shown: reloading leads to the same path if and only if the series
      id survives trimming and the item carries no stale episode number. */
  lemma ReloadKeepsPath(numerals: Numerals, item: MediaItem)
    requires Faithful(numerals) && Proper(RouteOf(item, None))
    ensures var path := Url(numerals, item, None);
            var back := ItemOfPath(numerals, BrowserPath(path), Some(item));
            back.Some? && (Url(numerals, back.value, None) == path <==> ReloadSafe(numerals, item))
  {
    var route := RouteOf(item, None);
    var back := ItemOf(numerals, route, Some(item));
    PathNamesRoute(numerals, route);
    PathsDiffer(numerals, RouteOf(back, None), route);
    ReloadHasRoute(numerals, item);
  }

  lemma ReloadHasRoute(numerals: Numerals, item: MediaItem)
    requires Proper(RouteOf(item, None))
    ensures RouteOf(ItemOf(numerals, RouteOf(item, None), Some(item)), None) == RouteOf(item, None)
            <==> ReloadSafe(numerals, item)
  {
    var route := RouteOf(item, None);
    if route.Season? && TakesStored(item, route) {
      StoredSeason(numerals, item);
    } else if ItemOf(numerals, route, Some(item)) != item {
      assert ItemOf(numerals, route, Some(item)) == ItemOf(numerals, route, None);
      ItemHasRoute(numerals, item, None);
    } else {
      assert !route.Season?;
    }
  }

  /** With a `continueEpisodeNumber` that is whole or absent, and a trimmed series id, reloading always keeps the path. */
  lemma WholeEpisodesReload(numerals: Numerals, item: MediaItem)
    requires Faithful(numerals) && Proper(RouteOf(item, None))
    requires item.raw.continueEpisodeNumber != Some(NotWhole)
    requires var route := RouteOf(item, None); route.Season? ==> Trim(route.series) == route.series
    ensures var path := Url(numerals, item, None);
            var back := ItemOfPath(numerals, BrowserPath(path), Some(item));
            back.Some? && Url(numerals, back.value, None) == path
  {
    ReloadKeepsPath(numerals, item);
  }

  /** A series kept in the history with the episode number 2 and a fractional `continueEpisodeNumber`: its path has no
      episode, and the reloaded item's path has. */
  lemma StaleEpisodeAppears(numerals: Numerals, item: MediaItem)
    requires Faithful(numerals)
    requires item == MediaItem("x", None, "series", "", "", "", Some(Whole(1)), Some(Whole(2)), NO_RAW.(continueEpisodeNumber := Some(NotWhole)))
    ensures var route := Season("x", 1, None);
            var back := ItemOfPath(numerals, BrowserPath(Url(numerals, item, None)), Some(item));
            RouteOf(item, None) == route && back.Some? && RouteOf(back.value, None) == route.(episode := Some(2))
  {
    NothingTrimmed();
    TrimmedStays(item.id);
    assert SeriesRouteId(item) == item.id;
    PathNamesRoute(numerals, RouteOf(item, None));
  }

  // ---------------------------------------------------------------- the printer and the parser

  lemma SeriesText(id: string)
    ensures Path(["media", "series", id]) == "/media/series/" + id
    ensures Encode("series") == "series"
  {
    PathOfTwo("series", id);
    PathAppend(["media"], ["series", id]);
    assert ["media"] + ["series", id] == ["media", "series", id];
    EncodePlain("series");
  }

  lemma SeasonText(before: seq<string>, season: string)
    ensures Path(before + ["season", season]) == Path(before) + "/season/" + season
  {
    PathOfTwo("season", season);
    PathAppend(before, ["season", season]);
  }

  lemma EpisodeText(before: seq<string>, episode: string)
    ensures Path(before + ["episode", episode]) == Path(before) + "/episode/" + episode
  {
    PathOfTwo("episode", episode);
    PathAppend(before, ["episode", episode]);
  }

  lemma ChannelText(addon: string, resource: string)
    ensures Path(["media", "tv", addon, resource]) == "/media/tv/" + addon + "/" + resource
  {
    PathOfTwo("media", "tv");
    PathOfTwo(addon, resource);
    PathAppend(["media", "tv"], [addon, resource]);
    assert ["media", "tv"] + [addon, resource] == ["media", "tv", addon, resource];
  }

  lemma TitleText(mediaType: string, id: string)
    ensures Path(["media", mediaType, id]) == "/media/" + mediaType + "/" + id
  {
    PathOfTwo(mediaType, id);
    PathAppend(["media"], [mediaType, id]);
    assert ["media"] + [mediaType, id] == ["media", mediaType, id];
  }

  method SeriesUrl(numerals: Numerals, series: string, season: Option<Number>, episode: Option<Number>) returns (path: string)
    ensures WholeOf(season).None? ==> path == Path(RouteSegments(numerals, Title("series", series)))
    ensures WholeOf(season).Some? ==>
              path == Path(RouteSegments(numerals, Season(series, WholeOf(season).value, WholeOf(episode))))
  {
    ghost var id := EncodeRouteId(series);
    path := "/media/series/" + EncodeRouteId(series);
    SeriesText(id);
    if season.Some? && season.value.Whole? {
      ghost var number := numerals.show(season.value.value);
      SeasonText(["media", "series", id], number);
      assert ["media", "series", id] + ["season", number] == ["media", "series", id, "season", number];
      path := path + "/season/" + numerals.show(season.value.value);
      if episode.Some? && episode.value.Whole? {
        EpisodeText(["media", "series", id, "season", number], numerals.show(episode.value.value));
        path := path + "/episode/" + numerals.show(episode.value.value);
      } else {
        assert ["media", "series", id, "season", number] + [] == ["media", "series", id, "season", number];
      }
    }
  }

  method ChannelUrl(numerals: Numerals, addon: string, resource: string) returns (path: string)
    ensures path == Path(RouteSegments(numerals, Channel(addon, resource)))
  {
    ChannelText(EncodeRouteId(addon), EncodeRouteId(resource));
    path := "/media/tv/" + EncodeRouteId(addon) + "/" + EncodeRouteId(resource);
  }

  method TitleUrl(numerals: Numerals, mediaType: string, id: string) returns (path: string)
    ensures path == Path(RouteSegments(numerals, Title(mediaType, id)))
  {
    TitleText(Encode(mediaType), EncodeRouteId(id));
    path := "/media/" + Encode(mediaType) + "/" + EncodeRouteId(id);
  }

  /** `mediaRouteURL`. */
  method MediaRouteUrl(numerals: Numerals, item: MediaItem, context: Option<Context>) returns (path: string)
    ensures path == Url(numerals, item, context)
  {
    if item.mediaType == "series" || item.mediaType == "episode" {
      path := SeriesUrl(numerals, SeriesRouteId(item), SeasonOf(item, context), EpisodeOf(item, context));
      return;
    }
    if item.mediaType == "tv" && item.sourceAddonId != "" {
      path := ChannelUrl(numerals, item.sourceAddonId, MediaResourceId(item));
      return;
    }
    var routeId := if item.mediaType == "movie" && ImdbRouteId(item) != "" then ImdbRouteId(item) else item.id;
    path := TitleUrl(numerals, item.mediaType, routeId);
  }

  /** The season branch of `cleanMediaRoute`, which fills in the fields of a fresh or copied item. */
  method ReadSeasonItem(numerals: Numerals, segments: seq<string>, history: Option<MediaItem>) returns (r: Option<MediaItem>)
    requires |segments| >= 4
    ensures var route := ReadSeason(numerals, segments);
            r == if route.Some? then Some(ItemOf(numerals, route.value, history)) else None
  {
    var series := segments[2];
    var season := if |segments| > 4 then numerals.read(segments[4]) else None;
    var hasEpisode := |segments| == 7 && segments[5] == "episode";
    var episode := if hasEpisode then numerals.read(segments[6]) else None;
    if series == "" || (|segments| != 5 && !hasEpisode) || season.None? || (hasEpisode && episode.None?) {
      return None;
    }
    var mediaType := if hasEpisode then "episode" else "series";
    var stored := StoredOf(history, mediaType);
    var wantedEpisode := if episode.Some? then Some(Whole(episode.value)) else None;
    var matches := false;
    var item := MediaItem(series, None, mediaType, "", "", "", None, None, NO_RAW);
    if stored.Some? {
      item := stored.value;
      matches := SeasonOf(item, None) == Some(Whole(season.value)) && EpisodeOf(item, None) == wantedEpisode;
    } else if hasEpisode {
      item := item.(id := series + ":" + numerals.show(season.value) + ":" + numerals.show(episode.value));
    } else {
      item := item.(titleId := TitleIdOf(series));
    }
    item := item.(seasonNumber := Some(Whole(season.value)));
    if episode.Some? {
      item := item.(episodeNumber := Some(Whole(episode.value)));
    }
    item := item.(raw := item.raw.(
      routeSeriesResourceId := series,
      continueSeasonId := if matches then item.raw.continueSeasonId else None,
      continueSeasonNumber := Some(Whole(season.value)),
      continueEpisodeId := if matches then item.raw.continueEpisodeId else None,
      continueEpisodeNumber := wantedEpisode));
    return Some(item);
  }

  /** `cleanMediaRoute`, given the path the browser shows and the item kept in its history. */
  method CleanMediaRoute(numerals: Numerals, path: string, history: Option<MediaItem>) returns (r: Option<MediaItem>)
    ensures r == ItemOfPath(numerals, path, history)
  {
    var segments := DecodeAll(Filled(Split(path)));
    if |segments| < 3 || segments[0] != "media" {
      return None;
    }
    if segments[1] == "series" && |segments| > 3 && segments[3] == "season" {
      r := ReadSeasonItem(numerals, segments, history);
      return;
    }
    if segments[1] == "tv" && |segments| == 4 {
      var addon, resource := segments[2], segments[3];
      if addon == "" || resource == "" {
        return None;
      }
      var stored := StoredOf(history, "tv");
      if stored.Some? && stored.value.sourceAddonId == addon && MediaResourceId(stored.value) == resource {
        return stored;
      }
      return Some(MediaItem(resource, None, "tv", resource, addon, "", None, None, NO_RAW));
    }
    if |segments| != 3 || segments[1] == "" || segments[2] == "" {
      return None;
    }
    var stored := StoredOf(history, segments[1]);
    if stored.Some? {
      return stored;
    }
    return Some(MediaItem(segments[2], TitleIdOf(segments[2]), segments[1], "", "", "", None, None, NO_RAW));
  }
}
