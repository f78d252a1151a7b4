# Mood-based recommendations: a Dafny model

This project models the logic of a small media recommender. The user describes a mood in
text, and may switch on a camera and a microphone whose frames and audio chunks stream to
an analysis server over two websockets. The server fuses the text mood (from a sentiment
score) with the face and voice labels, maps the fused mood to a movie or game genre, and
asks a catalogue service for matching titles. The model covers:

- the server's request handling in `backend_local/main.py`: `fuse_moods`, text-mood
  thresholds, the genre and voice lookup tables, the `without_genres` parameter, the
  poster filter and the 12-movie cap, and the shape of both endpoints' replies
  (`fusion.dfy`, `recommender.dfy`);
- the home page (`frontend/src/pages/HomePage.jsx`) as a state machine: one state record,
  one transition per event (toggles, socket callbacks, sampler ticks, the microphone
  prompt's answer, submit, replies, the movies/games switch), each listing what it sends
  (`home_page.dfy`);
- the genre checkboxes (`GenreFilter.jsx`) and the favourites toggle (`App.jsx`), both
  built on one generic keyed-list toggle (`keyed_list.dfy`, `genre_filter.dfy`,
  `favorites.dfy`);
- the movie row (`MovieRow.jsx`): showing given movies or fetching them, decoding the
  reply, keeping the first ten, and which view it renders (`movie_row.dfy`);
- how the two tiers fit together: what the server makes of the page's request bodies
  (`wire.dfy`).

Shared pieces: `values.dfy` (optional values, string truthiness), `catalog.dfy` (items,
reply bodies, fetch outcomes) and `strings.dfy` (Python's `strip`, `lower`, `str(int)`,
`join` and `split`, with an integer parser as the inverse of `str`).

Inputs that come from outside the code are parameters: the sentiment analyser's compound
score (a `real`), the classifier's voice label, whether the API keys are configured, what
the catalogue services return, and the order `random.shuffle` picks (any permutation,
required as a multiset equality).

## Behaviour worth knowing

- A channel that is off is sent as `null` (`HomePage.BuildPayload`). The server reads
  `null` as a missing mood (`Wire.FromHomePage`).
- A failed request shows the fixed status "Error: Could not fetch recommendations."; the
  server's message is not shown (`HomePage.OnRespond`). The movie row does keep the thrown message
  (`MovieRow.FailureMessage`).
- A channel that is off can hold the label "Error!". If the camera is switched off while its
  socket is still connecting, the browser reports an error, and the error handler sets
  "Error!" anyway. That label is neither shown nor sent: the button shows the face mood only
  while the camera is on, the request carries `null` for it, and switching the camera on
  replaces it with "Connecting..." (`HomePage.ErrorAfterDisableIsHidden`).
- Replies are not matched to requests. A movie reply that arrives after a switch to games
  still fills the results (`HomePage.StaleReplyAfterKindSwitch`). The only guard is that
  the submit button is disabled while a request is out (`HomePage.OneRequestAtATime`).
- The server drops only the "neutral" and "..." labels. The page's "Connecting..." and
  "Error!" labels take part in the vote, can become the detected mood, and then fall
  through to the default genre (`Wire.SentinelLabelWinsFusion`).
- The games endpoint catches only transport errors. An error status from RAWG escapes the
  handler and becomes a status-500 reply (`Recommender.GetGameRecommendations`). That reply
  is produced outside the CORS middleware and has no CORS header, so the page's
  cross-origin `fetch` rejects as if the network had failed (`Catalog.Observe`).
- A reply without `mood` is still a success, and its status prints "undefined"
  (`HomePage.SuccessStatus`). A reply without `recommendations` gives an empty list.
- Only a movie row that fetches its own movies (the discover page's rows) caps them at
  ten. The home page hands its movie results to a movie row, which does not cap given
  movies, so it shows at most the twelve the server sent. Its game results go to a game
  row, which shows every game RAWG returned.
- The genre checkboxes are labelled as genres to also include, but the selection is sent
  as `exclude_genres` and becomes TMDb's `without_genres`. Ticking the genre of the
  detected mood therefore asks for that genre and excludes it in the same query
  (`Wire.TickedMoodGenreIsExcluded`).

## Model

| member | source | states |
|---|---|---|
| `Strings.Strip` | backend_local/main.py:73 | `text.strip()` is empty exactly when every character is Python white space; otherwise it starts and ends with a non-space character |
| `Strings.Lower` | backend_local/main.py:78 | lower-casing keeps the length, leaves no upper-case ASCII letter, and changes only upper-case letters |
| `Strings.IntToDecimalRoundTrip` | backend_local/main.py:79 | reading back `str(i)` gives `i`, negative numbers included |
| `Strings.SplitJoin` | backend_local/main.py:79 | splitting a `","`-join on `","` gives back the parts, given at least one part and no comma in any part |
| `MoodFusion.Keys` | backend_local/main.py:58 | the counter's keys are the distinct votes, each once, in order of first appearance in the votes |
| `MoodFusion.FirstMaxIndex` | backend_local/main.py:58 | the chosen key has the largest count, and every key before it has a strictly smaller count (ties go to the key inserted first) |
| `MoodFusion.MostCommon` | backend_local/main.py:58 | `most_common(1)` returns a vote with the largest count, and of the votes with that count the one that first appears earliest |
| `MoodFusion.TieGoesToFirstAppearance` | backend_local/main.py:58 | for the votes c, a, b, b, a the result is "a": it ties with "b" and appears first, while "c" appears first of all but has fewer votes |
| `MoodFusion.DoubledFirstVoteWins` | backend_local/main.py:54-58 | a vote cast twice at the front of the ballot wins against at most two other votes |
| `MoodFusion.TextOutvotesLabels` | backend_local/main.py:54-58 | with a text mood, the vote picks the text mood whatever the face and voice labels are |
| `MoodFusion.FuseMoods` | backend_local/main.py:52-58 | "neutral" when nothing votes; the text mood whenever one exists; otherwise "neutral" or one of the voting labels |
| `MoodFusion.NonVotingLabelsIgnored` | backend_local/main.py:55-56 | a face or voice label that is missing, empty, "neutral" or "..." gives the same result as no label |
| `MoodFusion.LoneLabelWins` | backend_local/main.py:55-58 | without a text mood, a single voting label becomes the mood |
| `MoodFusion.FaceWinsTie` | backend_local/main.py:55-58 | without a text mood, two voting labels give the face label, whether or not they agree |
| `Recommender.TextMood` | backend_local/main.py:72-76 | "happy" iff the text has a non-space character and the score is at least 0.05; "sad" iff it has one and the score is at most -0.05; no mood otherwise |
| `Recommender.MovieGenre` | backend_local/main.py:78 | the genre is the table's entry for the lower-cased mood when the table has one, and 99 otherwise; it is 99 exactly when the lower-cased mood is unknown or "neutral" |
| `Recommender.GameGenre` | backend_local/main.py:107 | the slug is the table's entry for the lower-cased mood when the table has one, and "simulation" otherwise; it is "simulation" exactly when the lower-cased mood is unknown or "neutral" |
| `Recommender.VoiceMood` | backend_local/main.py:156 | "ang", "hap", "sad" and "neu" map to "angry", "happy", "sad" and "neutral", and any other label to "neutral"; the result is always a key of both genre tables |
| `Recommender.ExcludeGenresParam` | backend_local/main.py:79 | the parameter is empty exactly for a missing or empty list; otherwise it reads back as exactly the ids, in order |
| `Recommender.WithPoster` | backend_local/main.py:87 | the pool keeps every result that has a truthy `poster_path`, as often as it occurs, and nothing else |
| `Recommender.MovieQuery` | backend_local/main.py:72-83 | the mood is `fuse_moods` of the text mood and the two labels, so decisive text makes it "happy" or "sad"; the query's genre is the mood's genre and its `without_genres` is the serialised selection |
| `Recommender.GetRecommendations` | backend_local/main.py:69-96 | a missing key gives only the key error; a failed fetch gives an error with an empty list; success gives the fused mood and min(12, pool size) movies drawn from the poster pool, none more often than it occurs there |
| `Recommender.GameQueryFor` | backend_local/main.py:101-111 | the mood is `fuse_moods` of the text mood and the two labels, so decisive text makes it "happy" or "sad"; the slug is the mood's game genre |
| `Recommender.GetGameRecommendations` | backend_local/main.py:98-121 | a missing key gives the key error; a transport error gives an error with an empty list; an error status gives a 500 reply; success returns the fused mood and a permutation of the fetched games |
| `Catalog.Fails` | frontend/src/pages/HomePage.jsx:96-98 | a fetch succeeds exactly when it delivers a body whose `error` is missing or empty; a non-ok response, a rejection or a truthy `error` fails it |
| `Catalog.Observe` | frontend/src/pages/HomePage.jsx:93-97 | a 200 reply reaches the page as its JSON body; the status-500 reply of an unhandled exception lacks CORS headers, so the cross-origin `fetch` rejects and the page counts it as a failure |
| `KeyedList.RemoveKey` | frontend/src/App.jsx:13 | the filter keeps exactly the elements whose key differs, and no element with the removed key is left |
| `KeyedList.RemoveAbsentKey` | frontend/src/App.jsx:13 | filtering out a key no element has returns the list unchanged |
| `KeyedList.RemoveKeyAppend` | frontend/src/App.jsx:13 | filtering distributes over concatenation; with `RemoveAbsentKey` this fixes the order and multiplicity of what the filter keeps |
| `KeyedList.RemoveKeyKeepsDistinct` | frontend/src/App.jsx:13 | filtering keeps keys distinct |
| `KeyedList.ToggleKeepsOthersInOrder` | frontend/src/components/GenreFilter.jsx:13-18 | removing the toggled key before or after the toggle gives the same list: other elements keep their order |
| `KeyedList.ToggleFlipsOneKey` | frontend/src/App.jsx:11-15 | a toggle flips whether the toggled key is present and leaves every other key's presence alone |
| `KeyedList.ToggleKeepsDistinct` | frontend/src/App.jsx:11-15 | a list with distinct keys keeps distinct keys after a toggle |
| `KeyedList.ToggleAbsentTwice` | frontend/src/App.jsx:11-15 | toggling an absent key twice restores the list exactly |
| `KeyedList.TogglePresentTwice` | frontend/src/components/GenreFilter.jsx:13-18 | toggling a present key twice removes every element with that key and appends the element once |
| `GenreFilter.Without` | frontend/src/components/GenreFilter.jsx:15 | the filtered selection has the same ids minus the removed one |
| `GenreFilter.Toggle` | frontend/src/components/GenreFilter.jsx:13-18 | an absent id is appended at the end; a present id is removed everywhere; only that id changes membership, and the other ids keep their order |
| `GenreFilter.ToggleKeepsNoDuplicates` | frontend/src/components/GenreFilter.jsx:14-16 | a selection without duplicates has none after a toggle |
| `GenreFilter.ToggleAbsentTwice` | frontend/src/components/GenreFilter.jsx:13-18 | toggling an absent id twice returns the original list |
| `GenreFilter.TogglePresentTwice` | frontend/src/components/GenreFilter.jsx:13-18 | toggling a present id twice gives the same set of ids, with that id moved to the end |
| `GenreFilter.GenreTableWellFormed` | frontend/src/components/GenreFilter.jsx:3-10 | the table has 18 genres with pairwise distinct ids |
| `GenreFilter.Checkboxes` | frontend/src/components/GenreFilter.jsx:25-31 | there is one checkbox per genre, and it is checked iff its id is selected |
| `GenreFilter.ClickFlipsOneCheckbox` | frontend/src/components/GenreFilter.jsx:30-31 | clicking a checkbox flips that checkbox and no other |
| `Favorites.ToggleFavorite` | frontend/src/App.jsx:11-15 | a movie whose id is not a favourite is appended; otherwise every favourite with its id is removed, matched by id and not by object; only that id changes status, and the rest keep their order |
| `Favorites.ToggleKeepsIdsUnique` | frontend/src/App.jsx:11-15 | favourites with distinct ids keep distinct ids after a toggle |
| `Favorites.ToggleAbsentTwice` | frontend/src/App.jsx:11-15 | toggling a movie that is not a favourite twice returns the original list |
| `MovieRow.Mount` | frontend/src/components/MovieRow.jsx:7-8 | the first render shows the given movies, or none, with no error |
| `MovieRow.RunEffect` | frontend/src/components/MovieRow.jsx:10-33 | the row fetches iff no movies are given and the mood is truthy; the request body carries only that mood, and the error is cleared; otherwise the given movies (or none) are shown |
| `MovieRow.FailureMessage` | frontend/src/components/MovieRow.jsx:20-26 | the error is "Server Error: " and the status for a non-ok reply, the `error` field's text, or the rejection's message |
| `MovieRow.FirstTen` | frontend/src/components/MovieRow.jsx:23 | the shown list is the first min(10, n) recommendations in server order, or empty when the field is missing |
| `MovieRow.Receive` | frontend/src/components/MovieRow.jsx:20-27 | a failure records the message and keeps the movies; a success shows exactly the first min(10, n) movies of the reply's list, or none when the list is missing |
| `MovieRow.Render` | frontend/src/components/MovieRow.jsx:35-58 | the error comes first, then "loading" (fetch mode, nothing to show), then nothing (given an empty list), else one card per movie in order, marked iff some favourite has its id |
| `MovieRow.FetchedRowShowsFirstTen` | frontend/src/components/MovieRow.jsx:11-37 | after a successful fetch the row shows no error; it shows cards iff the reply lists at least one movie, exactly min(10, n) of them, the first recommendations in order, and "loading" otherwise |
| `MovieRow.ToggleFlipsCardMark` | frontend/src/components/MovieRow.jsx:44-48 | toggling a shown movie flips its card's mark and leaves the marks of other ids alone |
| `HomePage.Enable` | frontend/src/pages/HomePage.jsx:43-45 | switching a channel on shows "Connecting..." and opens a new socket |
| `HomePage.Disable` | frontend/src/pages/HomePage.jsx:58-60 | switching a channel off closes its socket and shows "..." |
| `HomePage.OnSocket` | frontend/src/pages/HomePage.jsx:45-51 | the handshake opens a connecting socket and leaves any other socket as it is; a message on an open socket becomes the label, and on any other socket changes nothing; an error on an existing socket sets "Error!" and closes it; a close only closes; without a socket nothing changes; the toggle never changes |
| `HomePage.OnToggleCamera` | frontend/src/pages/HomePage.jsx:42-62 | the camera flips; on means "Connecting...", a connecting socket and a running frame interval; off means "...", a closed socket and no interval; nothing else changes |
| `HomePage.StopMic` | frontend/src/pages/HomePage.jsx:79-81 | switching the microphone off stops the recorder, closes the socket and shows "..." |
| `HomePage.OnToggleMic` | frontend/src/pages/HomePage.jsx:64-83 | the microphone flips, with the same label and socket rules as the camera; switching on leaves the recorder to the later grant, switching off stops it; nothing but the voice channel and the recorder changes |
| `HomePage.OnMicDenied` | frontend/src/pages/HomePage.jsx:78 | a refused microphone request turns the microphone toggle back off |
| `HomePage.OnFrameTick` | frontend/src/pages/HomePage.jsx:52-57 | a tick sends exactly one frame iff the interval runs, the socket is open, the webcam is mounted and the screenshot is non-empty; nothing otherwise |
| `HomePage.OnAudioChunk` | frontend/src/pages/HomePage.jsx:76 | a chunk is sent iff the recorder runs, the chunk is non-empty and the socket is open |
| `HomePage.BuildPayload` | frontend/src/pages/HomePage.jsx:89 | the body has the text verbatim, each channel's label iff that channel is on (`null` otherwise), and the genre selection |
| `HomePage.Endpoint` | frontend/src/pages/HomePage.jsx:88 | movies go to `/get_recommendations`, games to `/get_game_recommendations` |
| `HomePage.OnSubmit` | frontend/src/pages/HomePage.jsx:85-95 | while loading nothing happens; otherwise the page starts loading, shows "Finding …" and posts one request built from the current state |
| `HomePage.SuccessStatus` | frontend/src/pages/HomePage.jsx:99 | the status is "Success! Detected mood is '", the mood, then "'.", with "undefined" for a missing mood, so the mood reads back from between the quotes |
| `HomePage.OnRespond` | frontend/src/pages/HomePage.jsx:96-106 | without a request out nothing changes; otherwise loading ends whatever the outcome; a failure shows the fixed error status and keeps the results; a success names the mood and takes the reply's list, or an empty one; nothing else changes |
| `HomePage.OnSelectKind` | frontend/src/pages/HomePage.jsx:27-31 | switching the type clears the results and shows "Ready."; moods, toggles and text are untouched |
| `HomePage.OnToggleGenre` | frontend/src/pages/HomePage.jsx:141 | genre clicks change the selection only while movies are selected, since the filter is rendered only then |
| `HomePage.Next` | frontend/src/pages/HomePage.jsx:27-144 | typing replaces only the text; a granted microphone starts a recorder, whatever the toggle; an event has at most one effect, and only a submit posts, only a tick sends a frame, only a chunk sends audio; only a submit or a reply changes whether a request is out |
| `HomePage.InitialConsistent` | frontend/src/pages/HomePage.jsx:13-25 | the page starts with both channels off, no socket and no frame interval, which satisfies the invariant |
| `HomePage.NextKeepsConsistent` | frontend/src/pages/HomePage.jsx:42-83 | every event keeps the invariant: an enabled channel has a socket, a disabled one has no socket that can send, and the frame interval runs iff the camera is on |
| `HomePage.TogglesChangeOnlyByUser` | frontend/src/pages/HomePage.jsx:136-137 | only the camera button changes the camera toggle; only the microphone button or a refusal changes the microphone toggle |
| `HomePage.ChannelsIndependent` | frontend/src/pages/HomePage.jsx:45-73 | a face socket event changes only the face channel, and a voice event only the voice channel; an error sets "Error!" and keeps the toggle |
| `HomePage.NoFramesWhileCameraOff` | frontend/src/pages/HomePage.jsx:52-58 | once the camera is off, no event sequence without a camera toggle sends a frame |
| `HomePage.NoAudioWhileMicOff` | frontend/src/pages/HomePage.jsx:74-79 | once the microphone is off, no event sequence without a microphone toggle sends audio, even after a late grant |
| `HomePage.NothingSentBeforeFirstToggle` | frontend/src/pages/HomePage.jsx:42-83 | from the page's start, no frame is sent before the camera is first switched on, and no audio before the microphone is |
| `HomePage.PostGate` | frontend/src/pages/HomePage.jsx:85-105 | an event posts at most one request, and only when none is outstanding |
| `HomePage.OneRequestAtATime` | frontend/src/pages/HomePage.jsx:144 | over any event sequence, the requests posted are at most the replies received, plus one if none was out at the start; a page left loading has posted a request or started with one out |
| `HomePage.FaceSessionScenario` | frontend/src/pages/HomePage.jsx:42-62 | enable, read "angry", disable: the label is "..." and a later tick sends nothing |
| `HomePage.EditWhileLoading` | frontend/src/pages/HomePage.jsx:85-106 | a request edited while out posts the body as it was at submit time, and its reply lands on the edited state |
| `HomePage.ErrorAfterDisableIsHidden` | frontend/src/pages/HomePage.jsx:44-89 | an error reported after the camera was switched off leaves "Error!" on a camera that is off; the request sends `null` for it and switching the camera on replaces it with "Connecting..." |
| `HomePage.StaleReplyAfterKindSwitch` | frontend/src/pages/HomePage.jsx:96-100 | a movie reply that arrives after a switch to games still becomes the results |
| `Wire.FromHomePage` | backend_local/main.py:42-46 | the server reads every field of the page's body, and reads `null` moods as missing |
| `Wire.FromMovieRow` | frontend/src/components/MovieRow.jsx:18 | a row's body carries only the face mood; text, voice and exclusions are missing |
| `Wire.DecisiveTextDecides` | backend_local/main.py:72-77 | text with a decisive score makes the server's mood "happy" or "sad", whatever the camera and microphone say |
| `Wire.ChannelsOffOnlyTextCounts` | frontend/src/pages/HomePage.jsx:89 | with both channels off, the server's mood is the text mood or "neutral" |
| `Wire.SentinelLabelWinsFusion` | backend_local/main.py:55-56 | with the camera showing "Connecting..." or "Error!", no decisive text and the microphone off, that label is the detected mood and the genre is the default 99 |
| `Wire.SentinelHasDefaultGenre` | backend_local/main.py:78 | the labels "Connecting..." and "Error!" are not table keys once lower-cased, so both get the default genre 99 |
| `Wire.RowGenreOfKnownMood` | backend_local/main.py:77-78 | a row fetching for any mood of the genre table gets that mood's genre, "neutral" (99) included |
| `Wire.DiscoverRowGenre` | frontend/src/pages/DiscoverPage.jsx:13-15 | the discover rows fetch Action (28) for "angry", Mystery (9648) for "surprise" and Comedy (35) for "happy" |
| `Wire.MoodGenresAreFilterChoices` | backend_local/main.py:48 | every genre a mood maps to is one of the genre filter's checkboxes |
| `Wire.GameStatusErrorReachesPage` | backend_local/main.py:113-121 | a RAWG error status shows the fixed error status on the page and keeps the old results |
| `Wire.MovieReplyBody` | backend_local/main.py:84-96 | the movie endpoint's reply to the page's request is error-free, names the mood fused from that request, and lists at most twelve movies, all from the results and all with posters |
| `Wire.MovieReplyReachesPage` | frontend/src/pages/HomePage.jsx:85-106 | submit, an edit while loading, then a successful reply: one post of the body as submitted, the edited text kept, and the status names the mood fused from the submitted state, with at most twelve poster movies shown |
| `Wire.TickedMoodGenreIsExcluded` | backend_local/main.py:79-83 | when the selection holds the mood's genre, the query's `without_genres` reads back to a list containing the very genre it asks for |

## Left out

- Sentiment scoring, face emotion detection and voice classification are foreign
  libraries. Their outputs are inputs here: the compound score, the face label and the
  voice classifier's best label.
- HTTP and websocket transport are left out: `requests`/`httpx`/`fetch`, the socket server
  loops, base64 and image decoding, audio resampling, CORS, the tunnel header, and the
  server startup.
- Watch-provider lookups (`fetch_watch_providers`) are left out. They only attach an extra
  field to each returned movie and swallow their own errors.
- The reviews endpoint and the movie modal, game row, favourites page and discover page
  markup are display only. The discover page's three rows appear only through
  `Wire.DiscoverRowGenre`.
- Randomness: the random page number is not modelled, since it only affects which results
  the catalogue returns. The shuffle is any permutation the caller supplies.
- Floating point: the compound score is an exact `real`, so rounding at the ±0.05
  thresholds is not modelled. Rating formatting (`toFixed`) is left out.
- Timers: interval ticks and recorder chunks are discrete events, and the 1.5 s and 2 s
  cadences are not modelled.
- `Strings.Lower` is weaker than Python's `str.lower()`: it lowers ASCII letters only.
  Python also lowers U+212A (Kelvin sign) to "k" and U+0130 to "i" followed by U+0307.
  No key of the lookup tables contains "k" or U+0307, and every other non-ASCII character
  lowers to a non-ASCII one, so the lookups agree.
- `HomePage.OnSocket` keeps one socket per channel, the one the page's ref points to. A
  superseded socket's late callbacks are not told apart from the current one's; only its
  error (the case that matters) is modelled. In the model that error also closes the
  current socket, so after a quick off and on the camera sends no frames. In the page the
  new socket keeps connecting and the interval keeps sending.
- `HomePage.OnAudioChunk` keeps one recorder. A late microphone grant replaces it, so two
  recorders running at once are not modelled. The recorder's final chunk at `stop()` finds
  the socket already closing and is dropped.
- A microphone grant is accepted in any state. The model does not track whether a
  permission request is pending.
- Items keep only `id`, `title` and `poster_path`. Non-string `mood` or `error` fields in a
  reply are not modelled.
- The text of a rejected `fetch` is browser-specific (for example "Failed to fetch"), so
  it is a parameter of `Catalog.Observe`.
