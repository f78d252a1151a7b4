/** The recommendation server's request handling, minus the catalogue
    services it calls: the text mood from the sentiment score, the fused
    mood, the genre lookups, the `without_genres` parameter, and the
    shaping of the reply. */
module Recommender {
  import opened Values
  import opened Catalog
  import opened Strings
  import MoodFusion

  /** The request body both recommendation endpoints accept; every field may
      be missing or null. */
  datatype RecPayload = RecPayload(
    text: Option<string>,
    faceMood: Option<string>,
    voiceMood: Option<string>,
    excludeGenres: Option<seq<int>>)

  const PositiveThreshold: real := 0.05
  const NegativeThreshold: real := -0.05
  const MaxMovies: nat := 12

  const TmdbKeyMissing: string := "TMDb API Key not configured."
  const RawgKeyMissing: string := "RAWG API Key is not configured."
  const TmdbFailurePrefix: string := "Failed to fetch from TMDb: "
  const RawgFailurePrefix: string := "Failed to fetch games from RAWG: "

  const MoodToGenre: map<string, int> :=
    map["happy" := 35, "sad" := 18, "angry" := 28, "fear" := 27, "surprise" := 9648, "neutral" := 99, "calm" := 10749]
  const DefaultGenre: int := 99

  const MoodToGameGenre: map<string, string> :=
    map["happy" := "action", "sad" := "role-playing-games-rpg", "angry" := "shooter", "fear" := "adventure",
        "surprise" := "puzzle", "neutral" := "simulation"]
  const DefaultGameGenre: string := "simulation"

  const VoiceMoodMap: map<string, string> := map["ang" := "angry", "hap" := "happy", "sad" := "sad", "neu" := "neutral"]

  /** The text is present and not all white space: `text and text.strip()`. */
  predicate HasContent(text: Option<string>) {
    text.Some? && |Strip(text.value)| > 0
  }

  /** The mood read from the text, given the sentiment analyser's compound
      score: "happy" at or above 0.05, "sad" at or below -0.05, none in
      between or when the text is missing or blank. */
  function TextMood(text: Option<string>, compound: real): (mood: Option<string>)
    ensures mood == Some("happy") <==> text.Some? && HasNonSpace(text.value) && compound >= PositiveThreshold
    ensures mood == Some("sad") <==> text.Some? && HasNonSpace(text.value) && compound <= NegativeThreshold
    ensures mood.None? <==> !(text.Some? && HasNonSpace(text.value)) || (NegativeThreshold < compound < PositiveThreshold)
  {
    if HasContent(text) then
      if compound >= PositiveThreshold then Some("happy")
      else if compound <= NegativeThreshold then Some("sad")
      else None
    else None
  }

  /** The TMDb genre for a mood, ignoring case; unknown moods get the
      documentary genre, which is also the neutral mood's. */
  function MovieGenre(mood: string): (genre: int)
    ensures genre in MoodToGenre.Values
    ensures genre == DefaultGenre <==> Lower(mood) !in MoodToGenre || Lower(mood) == MoodFusion.Neutral
    ensures Lower(mood) in MoodToGenre ==> genre == MoodToGenre[Lower(mood)]
  {
    var key := Lower(mood);
    assert MoodToGenre["neutral"] == DefaultGenre;
    if key in MoodToGenre then MoodToGenre[key] else DefaultGenre
  }

  /** The RAWG genre slug for a mood, ignoring case; unknown moods get
      "simulation", which is also the neutral mood's. */
  function GameGenre(mood: string): (genre: string)
    ensures genre in MoodToGameGenre.Values
    ensures genre == DefaultGameGenre <==> Lower(mood) !in MoodToGameGenre || Lower(mood) == MoodFusion.Neutral
    ensures Lower(mood) in MoodToGameGenre ==> genre == MoodToGameGenre[Lower(mood)]
  {
    var key := Lower(mood);
    assert MoodToGameGenre["neutral"] == DefaultGameGenre;
    if key in MoodToGameGenre then MoodToGameGenre[key] else DefaultGameGenre
  }

  /** The mood the voice socket sends for the classifier's best label:
      always a mood both genre tables know, and "neutral" for every label
      but "ang", "hap" and "sad". */
  function VoiceMood(classifierLabel: string): (mood: string)
    ensures mood in MoodToGenre && mood in MoodToGameGenre
    ensures mood != MoodFusion.Neutral <==> classifierLabel in {"ang", "hap", "sad"}
    ensures classifierLabel in VoiceMoodMap ==> mood == VoiceMoodMap[classifierLabel]
  {
    if classifierLabel in VoiceMoodMap then VoiceMoodMap[classifierLabel] else MoodFusion.Neutral
  }

  /** `map(str, ids)`. */
  function Decimals(ids: seq<int>): (texts: seq<string>)
    ensures |texts| == |ids|
    ensures forall i :: 0 <= i < |texts| ==> texts[i] == IntToDecimal(ids[i])
  {
    if |ids| == 0 then [] else [IntToDecimal(ids[0])] + Decimals(ids[1..])
  }

  /** Reads every piece as an integer; `None` if any piece is not one. */
  function ParseAll(texts: seq<string>): Option<seq<int>> {
    if |texts| == 0 then Some([])
    else
      match (ParseDecimal(texts[0]), ParseAll(texts[1..]))
      case (Some(first), Some(rest)) => Some([first] + rest)
      case _ => None
  }

  /** How a receiver reads a `without_genres` value: comma-separated integers. */
  function ParseIdList(param: string): Option<seq<int>> {
    ParseAll(Split(param, ','))
  }

  lemma {:induction false} ParseAllDecimals(ids: seq<int>)
    ensures ParseAll(Decimals(ids)) == Some(ids)
  {
    if |ids| > 0 {
      IntToDecimalRoundTrip(ids[0]);
      assert Decimals(ids)[1..] == Decimals(ids[1..]);
      ParseAllDecimals(ids[1..]);
      assert [ids[0]] + ids[1..] == ids;
    }
  }

  /** The `without_genres` parameter: empty for a missing or empty list, and
      otherwise text that reads back as exactly the listed ids, in order. */
  function ExcludeGenresParam(ids: Option<seq<int>>): (param: string)
    ensures param == "" <==> ids.None? || |ids.value| == 0
    ensures ids.Some? && |ids.value| > 0 ==> ParseIdList(param) == Some(ids.value)
  {
    if ids.Some? && |ids.value| > 0 then
      var texts := Decimals(ids.value);
      SplitJoin(texts, ',');
      ParseAllDecimals(ids.value);
      assert |Join(texts, ',')| > 0 by {
        assert |texts[0]| > 0;
      }
      Join(texts, ',')
    else ""
  }

  /** The discover results that have a poster, each as often as before. */
  function WithPoster(results: seq<Item>): (pool: seq<Item>)
    ensures forall m :: multiset(pool)[m] == if Truthy(m.posterPath) then multiset(results)[m] else 0
  {
    if |results| == 0 then []
    else
      assert results == [results[0]] + results[1..];
      (if Truthy(results[0].posterPath) then [results[0]] else []) + WithPoster(results[1..])
  }

  function Min(a: nat, b: nat): nat {
    if a < b then a else b
  }

  /** A prefix takes each element at most as often as the whole sequence. */
  lemma PrefixWithin<T>(s: seq<T>, k: nat)
    requires k <= |s|
    ensures multiset(s[..k]) <= multiset(s)
  {
    assert s == s[..k] + s[k..];
  }

  /** What a movie request asks TMDb for. */
  datatype DiscoverQuery = DiscoverQuery(mood: string, genreId: int, withoutGenres: string)

  function MovieQuery(payload: RecPayload, compound: real): (query: DiscoverQuery)
    ensures query.mood == MoodFusion.FuseMoods(TextMood(payload.text, compound), payload.faceMood, payload.voiceMood)
    ensures HasContent(payload.text) && (compound >= PositiveThreshold || compound <= NegativeThreshold)
            ==> query.mood in {"happy", "sad"}
    ensures query.genreId == MovieGenre(query.mood)
    ensures query.withoutGenres == ExcludeGenresParam(payload.excludeGenres)
  {
    var mood := MoodFusion.FuseMoods(TextMood(payload.text, compound), payload.faceMood, payload.voiceMood);
    DiscoverQuery(mood, MovieGenre(mood), ExcludeGenresParam(payload.excludeGenres))
  }

  /** How a call to a catalogue service ends. */
  datatype Upstream<T> =
    | Fetched(value: T)
    | TransportError(reason: string)
    | StatusError(reason: string)

  /** `get_recommendations`: an error body when no TMDb key is configured or
      TMDb fails; otherwise the fused mood and at most twelve of the
      results that have a poster, taken from `shuffled`, the pool in the
      random order `random.shuffle` chose. */
  function GetRecommendations(keyConfigured: bool, payload: RecPayload, compound: real,
                              discover: Upstream<seq<Item>>, shuffled: seq<Item>): (reply: HttpReply)
    requires discover.Fetched? ==> multiset(shuffled) == multiset(WithPoster(discover.value))
    ensures reply.Json?
    ensures !keyConfigured ==> reply.body == RecBody(None, None, Some(TmdbKeyMissing))
    ensures keyConfigured && !discover.Fetched? ==>
              Truthy(reply.body.error) && reply.body.recommendations == Some([]) && reply.body.mood.None?
    ensures keyConfigured && discover.Fetched? ==>
              && reply.body.error.None?
              && reply.body.mood == Some(MovieQuery(payload, compound).mood)
              && reply.body.recommendations.Some?
              && var recs := reply.body.recommendations.value;
              && |recs| == Min(|WithPoster(discover.value)|, MaxMovies)
              && multiset(recs) <= multiset(WithPoster(discover.value))
              && forall m :: m in recs ==> m in discover.value && Truthy(m.posterPath)
  {
    if !keyConfigured then Json(RecBody(None, None, Some(TmdbKeyMissing)))
    else
      var query := MovieQuery(payload, compound);
      match discover
      case Fetched(results) =>
        var recs := if |shuffled| < MaxMovies then shuffled else shuffled[..MaxMovies];
        assert |shuffled| == |WithPoster(results)| by {
          assert |multiset(shuffled)| == |multiset(WithPoster(results))|;
        }
        PrefixWithin(shuffled, |recs|);
        assert recs == shuffled[..|recs|];
        assert forall m :: m in recs ==> m in discover.value && Truthy(m.posterPath) by {
          forall m | m in recs
            ensures m in discover.value && Truthy(m.posterPath)
          {
            assert m in multiset(shuffled);
          }
        }
        Json(RecBody(Some(query.mood), Some(recs), None))
      case TransportError(reason) =>
        Json(RecBody(None, Some([]), Some(TmdbFailurePrefix + reason)))
      case StatusError(reason) =>
        Json(RecBody(None, Some([]), Some(TmdbFailurePrefix + reason)))
  }

  /** What a game request asks RAWG for. */
  datatype GameQuery = GameQuery(mood: string, genre: string)

  function GameQueryFor(payload: RecPayload, compound: real): (query: GameQuery)
    ensures query.mood == MoodFusion.FuseMoods(TextMood(payload.text, compound), payload.faceMood, payload.voiceMood)
    ensures query.genre == GameGenre(query.mood)
    ensures HasContent(payload.text) && (compound >= PositiveThreshold || compound <= NegativeThreshold)
            ==> query.mood in {"happy", "sad"}
  {
    var mood := MoodFusion.FuseMoods(TextMood(payload.text, compound), payload.faceMood, payload.voiceMood);
    GameQuery(mood, GameGenre(mood))
  }

  /** `get_game_recommendations`: an error body when no RAWG key is
      configured or RAWG is unreachable; a status-500 reply when RAWG
      answers with an error status, which the handler does not catch;
      otherwise the fused mood and all fetched games in shuffled order. */
  function GetGameRecommendations(keyConfigured: bool, payload: RecPayload, compound: real,
                                  fetched: Upstream<seq<Item>>, shuffled: seq<Item>): (reply: HttpReply)
    requires fetched.Fetched? ==> multiset(shuffled) == multiset(fetched.value)
    ensures !keyConfigured ==> reply == Json(RecBody(None, None, Some(RawgKeyMissing)))
    ensures keyConfigured && fetched.StatusError? ==> reply.InternalServerError?
    ensures keyConfigured && fetched.TransportError? ==>
              reply.Json? && Truthy(reply.body.error) && reply.body.recommendations == Some([])
    ensures keyConfigured && fetched.Fetched? ==>
              && reply.Json? && reply.body.error.None?
              && reply.body.mood == Some(GameQueryFor(payload, compound).mood)
              && reply.body.recommendations.Some?
              && multiset(reply.body.recommendations.value) == multiset(fetched.value)
  {
    if !keyConfigured then Json(RecBody(None, None, Some(RawgKeyMissing)))
    else
      var query := GameQueryFor(payload, compound);
      match fetched
      case Fetched(_) => Json(RecBody(Some(query.mood), Some(shuffled), None))
      case TransportError(reason) => Json(RecBody(None, Some([]), Some(RawgFailurePrefix + reason)))
      case StatusError(_) => InternalServerError
  }
}
