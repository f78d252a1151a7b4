/** A row of movie cards: it shows the movies it is given, or fetches
    recommendations for a mood, and renders an error, a loading line,
    nothing, or the cards. */
module MovieRow {
  import opened Values
  import opened Catalog
  import opened Strings
  import Favorites

  const RowLimit: nat := 10
  const RecommendationsEndpoint: string := "/get_recommendations"
  const ServerErrorPrefix: string := "Server Error: "

  /** The props that matter: the movies handed in, and the mood to fetch for. */
  datatype Props = Props(movies: Option<seq<Item>>, initialMood: Option<string>)

  /** The component's state: the movies shown and the last error message. */
  datatype Row = Row(movies: seq<Item>, error: Option<string>)

  /** The request a fetching row sends; its JSON body is `{face_mood: faceMood}`. */
  datatype Request = Request(endpoint: string, faceMood: string)

  /** The row fetches when no movies are handed in and a mood is. */
  predicate Fetches(props: Props) {
    props.movies.None? && Truthy(props.initialMood)
  }

  /** The state on first render. */
  function Mount(props: Props): (row: Row)
    ensures row.error.None?
    ensures row.movies == if props.movies.Some? then props.movies.value else []
  {
    Row(props.movies.GetOr([]), None)
  }

  /** The effect run after a render with new props: the state it leaves and
      the request it sends, if any. */
  datatype Effect = Effect(row: Row, request: Option<Request>)

  function RunEffect(props: Props, row: Row): (effect: Effect)
    ensures effect.request.Some? <==> Fetches(props)
    ensures Fetches(props) ==>
              && effect.request.value == Request(RecommendationsEndpoint, props.initialMood.value)
              && effect.row == Row(row.movies, None)
    ensures !Fetches(props) ==>
              && effect.row.error == row.error
              && effect.row.movies == (if props.movies.Some? then props.movies.value else [])
  {
    if Fetches(props) then Effect(row.(error := None), Some(Request(RecommendationsEndpoint, props.initialMood.value)))
    else Effect(row.(movies := props.movies.GetOr([])), None)
  }

  /** The message of the error the fetch throws. */
  function FailureMessage(outcome: HttpOutcome): (message: string)
    requires Fails(outcome)
    ensures outcome.NotOk? ==> message == ServerErrorPrefix + IntToDecimal(outcome.status)
    ensures outcome.Delivered? ==> message == outcome.body.error.value
    ensures outcome.Failed? ==> message == outcome.reason
  {
    match outcome
    case NotOk(status, _) => ServerErrorPrefix + IntToDecimal(status)
    case Delivered(body) => body.error.value
    case Failed(reason) => reason
  }

  /** `recommendations?.slice(0, 10) || []`. */
  function FirstTen(recommendations: Option<seq<Item>>): (shown: seq<Item>)
    ensures recommendations.None? ==> shown == []
    ensures recommendations.Some? ==>
              && |shown| == (if |recommendations.value| < RowLimit then |recommendations.value| else RowLimit)
              && shown == recommendations.value[..|shown|]
  {
    match recommendations
    case None => []
    case Some(list) => if |list| < RowLimit then list else list[..RowLimit]
  }

  /** The fetch completed: on failure the error message is recorded and the
      movies stay; on success the movies become the first ten recommended,
      in the server's order. */
  function Receive(row: Row, outcome: HttpOutcome): (next: Row)
    ensures Fails(outcome) ==> next == Row(row.movies, Some(FailureMessage(outcome)))
    ensures !Fails(outcome) ==>
              && next.error == row.error
              && |next.movies| <= RowLimit
              && (outcome.body.recommendations.None? ==> next.movies == [])
              && (outcome.body.recommendations.Some? ==> next.movies <= outcome.body.recommendations.value)
              && next.movies == FirstTen(outcome.body.recommendations)
  {
    if Fails(outcome) then row.(error := Some(FailureMessage(outcome)))
    else row.(movies := FirstTen(outcome.body.recommendations))
  }

  datatype Card = Card(movie: Item, favorited: bool)

  datatype View = ErrorText(message: string) | LoadingText | Hidden | Cards(cards: seq<Card>)

  /** What the row renders: an error first, then "loading" for a fetching
      row with no movies yet, then nothing for an empty list handed in, and
      otherwise one card per movie, marked when its id is a favourite. */
  function Render(props: Props, row: Row, favorites: seq<Item>): (view: View)
    ensures view.ErrorText? <==> Truthy(row.error)
    ensures view.ErrorText? ==> view.message == row.error.value
    ensures view.LoadingText? <==> !Truthy(row.error) && props.movies.None? && |row.movies| == 0
    ensures view.Hidden? <==> !Truthy(row.error) && props.movies.Some? && |row.movies| == 0
    ensures view.Cards? <==> !Truthy(row.error) && |row.movies| > 0
    ensures view.Cards? ==>
              && |view.cards| == |row.movies|
              && forall i :: 0 <= i < |row.movies| ==>
                   view.cards[i].movie == row.movies[i]
                   && (view.cards[i].favorited <==> Favorites.IsFavorite(favorites, row.movies[i].id))
  {
    if Truthy(row.error) then ErrorText(row.error.value)
    else if props.movies.None? && |row.movies| == 0 then LoadingText
    else if props.movies.Some? && |row.movies| == 0 then Hidden
    else Cards(seq(|row.movies|, i requires 0 <= i < |row.movies| =>
                   Card(row.movies[i], exists f :: f in favorites && f.id == row.movies[i].id)))
  }

  /** A fetching row shows at most ten cards, the first ones the server
      recommended, in its order. */
  lemma FetchedRowShowsFirstTen(props: Props, row: Row, body: RecBody, favorites: seq<Item>)
    requires Fetches(props) && !Truthy(body.error)
    ensures var shown := Render(props, Receive(RunEffect(props, row).row, Delivered(body)), favorites);
            && !shown.ErrorText?
            && (shown.Cards? <==> body.recommendations.Some? && |body.recommendations.value| > 0)
            && (shown.Cards? ==>
                  |shown.cards| == if |body.recommendations.value| < RowLimit then |body.recommendations.value| else RowLimit)
            && (!shown.Cards? ==> shown.LoadingText?)
            && (shown.Cards? ==> forall i :: 0 <= i < |shown.cards| ==> shown.cards[i].movie == body.recommendations.value[i])
  {
  }

  /** Toggling a shown movie's favourite status flips its card's mark and
      leaves the marks of movies with other ids alone. */
  lemma ToggleFlipsCardMark(props: Props, row: Row, favorites: seq<Item>, i: nat)
    requires !Truthy(row.error) && i < |row.movies|
    ensures var before := Render(props, row, favorites);
            var after := Render(props, row, Favorites.ToggleFavorite(favorites, row.movies[i]));
            && before.Cards? && after.Cards?
            && after.cards[i].favorited == !before.cards[i].favorited
            && forall j :: 0 <= j < |row.movies| && row.movies[j].id != row.movies[i].id ==>
                 after.cards[j].favorited == before.cards[j].favorited
  {
  }
}
