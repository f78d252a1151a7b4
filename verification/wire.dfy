/** The page and the server together: how the request bodies the page
    sends are read by the server, and what mood and genre the server then
    settles on. */
module Wire {
  import opened Values
  import opened Catalog
  import Strings
  import MoodFusion
  import Recommender
  import HomePage
  import MovieRow
  import GenreFilter

  /** The server's reading of the home page's body: every field is sent, a
      channel that is off as `null`, which the server reads as missing. */
  function FromHomePage(p: HomePage.Payload): (r: Recommender.RecPayload)
    ensures r.text == Some(p.text) && r.excludeGenres == Some(p.excludeGenres)
    ensures r.faceMood == p.faceMood && r.voiceMood == p.voiceMood
  {
    Recommender.RecPayload(Some(p.text), p.faceMood, p.voiceMood, Some(p.excludeGenres))
  }

  /** The server's reading of a movie row's body `{face_mood: mood}`. */
  function FromMovieRow(request: MovieRow.Request): (r: Recommender.RecPayload)
    ensures r.faceMood == Some(request.faceMood)
    ensures r.text.None? && r.voiceMood.None? && r.excludeGenres.None?
  {
    Recommender.RecPayload(None, Some(request.faceMood), None, None)
  }

  /** The mood the movie endpoint settles on for a page submitted in state
      `s`, given the sentiment score of its text. */
  function ServerMood(s: HomePage.State, compound: real): string {
    Recommender.MovieQuery(FromHomePage(HomePage.BuildPayload(s)), compound).mood
  }

  /** Text with a decisive sentiment score decides the mood whatever the
      camera and microphone report. */
  lemma DecisiveTextDecides(s: HomePage.State, compound: real)
    requires Strings.HasNonSpace(s.text)
    requires compound >= Recommender.PositiveThreshold || compound <= Recommender.NegativeThreshold
    ensures ServerMood(s, compound) == if compound >= Recommender.PositiveThreshold then "happy" else "sad"
  {
  }

  /** With both channels off, only the text counts: its mood, or "neutral". */
  lemma ChannelsOffOnlyTextCounts(s: HomePage.State, compound: real)
    requires !s.face.on && !s.voice.on
    ensures ServerMood(s, compound) == Recommender.TextMood(Some(s.text), compound).GetOr(MoodFusion.Neutral)
  {
  }

  /** The page's "Connecting..." and "Error!" labels are not filtered by the
      server: with no decisive text and the microphone off, such a face
      label becomes the detected mood, and the movie genre falls back to
      the default. */
  lemma SentinelLabelWinsFusion(s: HomePage.State, compound: real)
    requires s.face.on && !s.voice.on
    requires s.face.mood == HomePage.MoodConnecting || s.face.mood == HomePage.MoodError
    requires Recommender.TextMood(Some(s.text), compound).None?
    ensures ServerMood(s, compound) == s.face.mood
    ensures Recommender.MovieGenre(ServerMood(s, compound)) == Recommender.DefaultGenre
  {
    var payload := FromHomePage(HomePage.BuildPayload(s));
    assert payload.faceMood == Some(s.face.mood) && payload.voiceMood.None?;
    assert MoodFusion.Votes(Some(s.face.mood));
    MoodFusion.LoneLabelWins(None, Some(s.face.mood), None);
    SentinelHasDefaultGenre(s.face.mood);
  }

  /** Neither sentinel label lower-cases to a key of the genre table: both
      end in punctuation, which no key does. */
  lemma SentinelHasDefaultGenre(sentinel: string)
    requires sentinel == HomePage.MoodConnecting || sentinel == HomePage.MoodError
    ensures Recommender.MovieGenre(sentinel) == Recommender.DefaultGenre
  {
    var lowered := Strings.Lower(sentinel);
    assert lowered[|lowered| - 1] == sentinel[|sentinel| - 1];
    assert lowered !in Recommender.MoodToGenre;
  }

  /** The genre a mood row asks for, whatever the sentiment score. */
  function RowGenre(mood: string, compound: real): int {
    var request := MovieRow.RunEffect(MovieRow.Props(None, Some(mood)), MovieRow.Row([], None)).request;
    if request.Some? then Recommender.MovieQuery(FromMovieRow(request.value), compound).genreId else 0
  }

  /** A row fetching for any mood of the genre table gets that mood's genre;
      for "neutral", which does not vote, the fallback is the same 99. */
  lemma RowGenreOfKnownMood(mood: string, compound: real)
    requires mood in Recommender.MoodToGenre
    ensures RowGenre(mood, compound) == Recommender.MoodToGenre[mood]
  {
    assert forall i :: 0 <= i < |mood| ==> !('A' <= mood[i] <= 'Z');
    Strings.LowerOfLowerCase(mood);
    MoodFusion.LoneLabelWins(None, Some(mood), None);
  }

  /** The moods of the discover page's three rows, and the genres their
      titles promise: Action, Mystery, Comedy. */
  const DiscoverMoods: seq<string> := ["angry", "surprise", "happy"]
  const DiscoverGenres: seq<int> := [28, 9648, 35]

  /** Each discover row fetches the genre its title promises. */
  lemma DiscoverRowGenre(k: nat, compound: real)
    requires k < |DiscoverMoods|
    ensures RowGenre(DiscoverMoods[k], compound) == DiscoverGenres[k]
  {
    var mood := DiscoverMoods[k];
    assert mood in Recommender.MoodToGenre && Recommender.MoodToGenre[mood] == DiscoverGenres[k];
    assert forall i :: 0 <= i < |mood| ==> 'a' <= mood[i] <= 'z';
    RowGenreOfKnownMood(mood, compound);
  }

  /** Every genre a mood maps to is one the genre filter offers. */
  lemma MoodGenresAreFilterChoices(mood: string)
    ensures exists i :: 0 <= i < |GenreFilter.Genres| && GenreFilter.Genres[i].id == Recommender.MovieGenre(mood)
  {
    var g := Recommender.MovieGenre(mood);
    var ids := [35, 18, 28, 27, 9648, 99, 10749];
    var at := [3, 6, 0, 10, 12, 5, 13];
    assert forall k :: 0 <= k < 7 ==> GenreFilter.Genres[at[k]].id == ids[k];
    assert g in ids;
  }

  /** The checkboxes are labelled as genres to include, but their selection
      is sent as genres to exclude: ticking the mood's own genre asks TMDb
      for that genre and, in the same query, for its exclusion. */
  lemma TickedMoodGenreIsExcluded(payload: Recommender.RecPayload, compound: real)
    requires payload.excludeGenres.Some?
    requires Recommender.MovieQuery(payload, compound).genreId in payload.excludeGenres.value
    ensures var query := Recommender.MovieQuery(payload, compound);
            var excluded := Recommender.ParseIdList(query.withoutGenres);
            excluded.Some? && query.genreId in excluded.value
  {
  }

  /** A game request that RAWG answers with an error status ends, on the
      page, with the fixed error status and the old results kept. */
  lemma GameStatusErrorReachesPage(s: HomePage.State, payload: Recommender.RecPayload, compound: real,
                                   reason: string, shuffled: seq<Item>, rejection: string)
    requires s.isLoading
    ensures var reply := Recommender.GetGameRecommendations(true, payload, compound, Recommender.StatusError(reason), shuffled);
            var t := HomePage.OnRespond(s, Observe(reply, rejection));
            t.status == HomePage.FailureStatus && t.recommendations == s.recommendations && !t.isLoading
  {
  }

  /** The movie endpoint's reply to the page's request in state `s`: an
      error-free body naming the server's mood, with at most twelve movies,
      all from the results and all with posters. */
  lemma MovieReplyBody(s: HomePage.State, compound: real, results: seq<Item>, shuffled: seq<Item>)
    requires multiset(shuffled) == multiset(Recommender.WithPoster(results))
    ensures var reply := Recommender.GetRecommendations(true, FromHomePage(HomePage.BuildPayload(s)), compound,
                                                        Recommender.Fetched(results), shuffled);
            && reply.Json? && reply.body.error.None?
            && reply.body.mood == Some(ServerMood(s, compound))
            && reply.body.recommendations.Some?
            && |reply.body.recommendations.value| <= Recommender.MaxMovies
            && forall m :: m in reply.body.recommendations.value ==> m in results && Truthy(m.posterPath)
  {
  }

  /** A successful movie reply names, on the page, the mood the server
      fused from the request as it was submitted, even when the text was
      edited while the request was out, and shows at most twelve movies,
      all with posters. */
  lemma MovieReplyReachesPage(s: HomePage.State, edit: string, compound: real, results: seq<Item>,
                               shuffled: seq<Item>, rejection: string)
    requires !s.isLoading && s.kind == HomePage.Movies
    requires multiset(shuffled) == multiset(Recommender.WithPoster(results))
    ensures var reply := Recommender.GetRecommendations(true, FromHomePage(HomePage.BuildPayload(s)), compound,
                                                        Recommender.Fetched(results), shuffled);
            var r := HomePage.Run(s, [HomePage.Submit, HomePage.EditText(edit), HomePage.Respond(Observe(reply, rejection))]);
            && r.effects == [HomePage.Post(HomePage.MoviesEndpoint, HomePage.BuildPayload(s))]
            && r.state.text == edit && !r.state.isLoading
            && r.state.status == HomePage.SuccessStatus(Some(ServerMood(s, compound)))
            && |r.state.recommendations| <= Recommender.MaxMovies
            && forall m :: m in r.state.recommendations ==> m in results && Truthy(m.posterPath)
  {
    var reply := Recommender.GetRecommendations(true, FromHomePage(HomePage.BuildPayload(s)), compound,
                                                Recommender.Fetched(results), shuffled);
    var outcome := Observe(reply, rejection);
    MovieReplyBody(s, compound, results, shuffled);
    HomePage.EditWhileLoading(s, edit, outcome);
    var s3 := HomePage.OnRespond(HomePage.OnSubmit(s).state.(text := edit), outcome);
    assert s3.status == HomePage.SuccessStatus(Some(ServerMood(s, compound)));
    assert s3.recommendations == reply.body.recommendations.value;
  }
}
