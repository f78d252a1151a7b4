/** The home page as a state machine: one state record, and one transition
    per event the page reacts to (user actions, socket callbacks, sampler
    ticks, the microphone prompt's answer, recommendation replies). React
    runs effects and handlers one at a time, so events are applied in
    sequence. A transition also lists what it sends: frames and audio
    chunks over the analysis sockets, and recommendation requests. */
module HomePage {
  import opened Values
  import opened Catalog
  import GenreFilter

  /** The label of a channel that is off. */
  const MoodOff: string := "..."
  const MoodConnecting: string := "Connecting..."
  const MoodError: string := "Error!"

  const InitialStatus: string := "Ready. Select your inputs and get recommendations."
  const ReadyStatus: string := "Ready."
  const FailureStatus: string := "Error: Could not fetch recommendations."

  const MoviesEndpoint: string := "/get_recommendations"
  const GamesEndpoint: string := "/get_game_recommendations"

  datatype Kind = Movies | Games

  function KindName(kind: Kind): string {
    match kind
    case Movies => "movies"
    case Games => "games"
  }

  /** A channel's socket: none created yet, connecting, open, or closed
      (closing and closed are one state: neither accepts sends). */
  datatype ReadyState = NoSocket | Connecting | Open | Closed

  /** One analysis channel, face or voice: whether the user switched it on,
      the mood label it shows, and its socket. */
  datatype Channel = Channel(on: bool, mood: string, socket: ReadyState)

  /** The audio recorder the microphone grant creates. */
  datatype Recorder = NoRecorder | Recording | Stopped

  datatype State = State(
    text: string,
    face: Channel,
    voice: Channel,
    frameTimer: bool,
    recorder: Recorder,
    status: string,
    recommendations: seq<Item>,
    isLoading: bool,
    kind: Kind,
    excludeGenres: seq<int>)

  const Initial: State := State("", Channel(false, MoodOff, NoSocket), Channel(false, MoodOff, NoSocket),
                                false, NoRecorder, InitialStatus, [], false, Movies, [])

  /** The callbacks a socket invokes. */
  datatype SocketEvent = Opened | Message(data: string) | Errored | Disconnected

  datatype Event =
    | EditText(text: string)
    | ToggleCamera
    | ToggleMic
    | FaceSocket(socketEvent: SocketEvent)
    | VoiceSocket(socketEvent: SocketEvent)
    | FrameTick(webcamMounted: bool, screenshot: Option<string>)
    | MicGranted
    | MicDenied
    | AudioChunk(chunk: seq<bv8>)
    | ToggleGenre(id: int)
    | Submit
    | Respond(outcome: HttpOutcome)
    | SelectKind(kind: Kind)

  /** The request body; a channel that is off sends `null`. */
  datatype Payload = Payload(text: string, faceMood: Option<string>, voiceMood: Option<string>, excludeGenres: seq<int>)

  datatype Effect =
    | SendFrame(image: string)
    | SendAudio(chunk: seq<bv8>)
    | Post(endpoint: string, payload: Payload)

  datatype Step = Step(state: State, effects: seq<Effect>)

  // ----- one channel -----

  /** Switching a channel on shows "Connecting..." and opens a new socket. */
  function Enable(c: Channel): (d: Channel)
    ensures d.on && d.mood == MoodConnecting && d.socket == Connecting
  {
    Channel(true, MoodConnecting, Connecting)
  }

  /** Switching a channel off closes its socket and shows "...". */
  function Disable(c: Channel): (d: Channel)
    ensures !d.on && d.mood == MoodOff && d.socket == Closed
  {
    Channel(false, MoodOff, Closed)
  }

  /** A socket callback: the handshake opens a connecting socket; a message,
      which the browser delivers only on an open socket, becomes the label;
      an error sets the label to "Error!" whatever the toggle says; a close
      only closes. The toggle never changes. */
  function OnSocket(c: Channel, event: SocketEvent): (d: Channel)
    ensures d.on == c.on
    ensures event.Message? && c.socket == Open ==> d == c.(mood := event.data)
    ensures event.Message? && c.socket != Open ==> d == c
    ensures event.Errored? && c.socket != NoSocket ==> d == c.(mood := MoodError, socket := Closed)
    ensures event.Disconnected? && c.socket != NoSocket ==> d == c.(socket := Closed)
    ensures event.Opened? && c.socket == Connecting ==> d == c.(socket := Open)
    ensures event.Opened? && c.socket != Connecting ==> d == c
    ensures !event.Errored? && !event.Message? ==> d.mood == c.mood
    ensures d.socket == Open ==> c.socket == Open || (c.socket == Connecting && event.Opened?)
    ensures c.socket == NoSocket ==> d == c
  {
    if c.socket == NoSocket then c
    else
      match event
      case Opened => if c.socket == Connecting then c.(socket := Open) else c
      case Message(data) => if c.socket == Open then c.(mood := data) else c
      case Errored => c.(mood := MoodError, socket := Closed)
      case Disconnected => c.(socket := Closed)
  }

  // ----- the page's transitions -----

  /** The camera button and the effect it triggers: on, a socket opens and
      the 1.5 s frame interval starts; off, the interval is cleared and the
      socket closed. Nothing but the face channel and its timer changes. */
  function OnToggleCamera(s: State): (t: State)
    ensures t.face.on == !s.face.on
    ensures t.face.on ==> t.face.mood == MoodConnecting && t.face.socket == Connecting && t.frameTimer
    ensures !t.face.on ==> t.face.mood == MoodOff && t.face.socket == Closed && !t.frameTimer
    ensures t == s.(face := t.face, frameTimer := t.frameTimer)
  {
    if s.face.on then s.(face := Disable(s.face), frameTimer := false)
    else s.(face := Enable(s.face), frameTimer := true)
  }

  /** The microphone is switched off: the recorder stops and the socket closes. */
  function StopMic(s: State): (t: State)
    ensures !t.voice.on && t.voice.mood == MoodOff && t.voice.socket == Closed
    ensures t.recorder != Recording
    ensures t == s.(voice := t.voice, recorder := t.recorder)
  {
    s.(voice := Disable(s.voice), recorder := if s.recorder == Recording then Stopped else s.recorder)
  }

  /** The microphone button and the effect it triggers: on, a socket opens
      and the microphone is requested; off, as `StopMic`. */
  function OnToggleMic(s: State): (t: State)
    ensures t.voice.on == !s.voice.on
    ensures t.voice.on ==> t.voice.mood == MoodConnecting && t.voice.socket == Connecting
    ensures t.voice.on ==> t.recorder == s.recorder
    ensures !t.voice.on ==> t.voice.mood == MoodOff && t.voice.socket == Closed && t.recorder != Recording
    ensures t == s.(voice := t.voice, recorder := t.recorder)
  {
    if s.voice.on then StopMic(s) else s.(voice := Enable(s.voice))
  }

  /** The microphone request was refused: the toggle goes back off. */
  function OnMicDenied(s: State): (t: State)
    ensures !t.voice.on
    ensures s.voice.on ==> t == StopMic(s)
    ensures !s.voice.on ==> t == s
  {
    if s.voice.on then StopMic(s) else s
  }

  /** The frame interval fires: exactly one frame is sent when the timer
      is running, the socket is open, the webcam is mounted and the
      screenshot is non-empty; nothing is sent otherwise. */
  function OnFrameTick(s: State, webcamMounted: bool, screenshot: Option<string>): (r: Step)
    ensures r.state == s
    ensures |r.effects| <= 1
    ensures |r.effects| == 1 <==> s.frameTimer && s.face.socket == Open && webcamMounted && Truthy(screenshot)
    ensures |r.effects| == 1 ==> r.effects[0] == SendFrame(screenshot.value)
  {
    if s.frameTimer && s.face.socket == Open && webcamMounted && Truthy(screenshot) then
      Step(s, [SendFrame(screenshot.value)])
    else Step(s, [])
  }

  /** The recorder delivers a chunk: it is sent exactly when the recorder
      is running, the chunk is not empty and the socket is open. */
  function OnAudioChunk(s: State, chunk: seq<bv8>): (r: Step)
    ensures r.state == s
    ensures |r.effects| <= 1
    ensures |r.effects| == 1 <==> s.recorder == Recording && |chunk| > 0 && s.voice.socket == Open
    ensures |r.effects| == 1 ==> r.effects[0] == SendAudio(chunk)
  {
    if s.recorder == Recording && |chunk| > 0 && s.voice.socket == Open then Step(s, [SendAudio(chunk)])
    else Step(s, [])
  }

  /** The request body: the text as typed, each channel's label when it is
      on and `null` when it is off, and the genre selection. */
  function BuildPayload(s: State): (p: Payload)
    ensures p.text == s.text && p.excludeGenres == s.excludeGenres
    ensures p.faceMood.Some? <==> s.face.on
    ensures p.faceMood.Some? ==> p.faceMood.value == s.face.mood
    ensures p.voiceMood.Some? <==> s.voice.on
    ensures p.voiceMood.Some? ==> p.voiceMood.value == s.voice.mood
  {
    Payload(s.text, if s.face.on then Some(s.face.mood) else None,
            if s.voice.on then Some(s.voice.mood) else None, s.excludeGenres)
  }

  /** Movies are asked of one endpoint, games of the other. */
  function Endpoint(kind: Kind): (endpoint: string)
    ensures endpoint == MoviesEndpoint <==> kind.Movies?
    ensures endpoint == GamesEndpoint <==> kind.Games?
  {
    assert |MoviesEndpoint| != |GamesEndpoint|;
    if kind.Movies? then MoviesEndpoint else GamesEndpoint
  }

  /** The "get recommendations" button, disabled while a request is out:
      it marks the page loading and posts the body built from the state. */
  function OnSubmit(s: State): (r: Step)
    ensures s.isLoading ==> r == Step(s, [])
    ensures !s.isLoading ==>
              && r.state == s.(isLoading := true, status := "Finding " + KindName(s.kind) + "...")
              && r.effects == [Post(Endpoint(s.kind), BuildPayload(s))]
  {
    if s.isLoading then Step(s, [])
    else Step(s.(isLoading := true, status := "Finding " + KindName(s.kind) + "..."),
              [Post(Endpoint(s.kind), BuildPayload(s))])
  }

  const SuccessPrefix: string := "Success! Detected mood is '"
  const SuccessSuffix: string := "'."

  /** The status after a successful reply; a missing mood prints as
      "undefined". The mood can be read back from between the quotes. */
  function SuccessStatus(mood: Option<string>): (status: string)
    ensures |status| >= |SuccessPrefix| + |SuccessSuffix|
    ensures status[..|SuccessPrefix|] == SuccessPrefix && status[|status| - |SuccessSuffix|..] == SuccessSuffix
    ensures status[|SuccessPrefix|..|status| - |SuccessSuffix|] == mood.GetOr("undefined")
  {
    SuccessPrefix + mood.GetOr("undefined") + SuccessSuffix
  }

  /** The outstanding request completes: loading ends whatever the outcome;
      a failure shows the fixed error status and keeps the results; a
      success names the mood and replaces the results with the reply's
      list, or with none when the list is missing. */
  function OnRespond(s: State, outcome: HttpOutcome): (t: State)
    ensures !s.isLoading ==> t == s
    ensures s.isLoading ==> !t.isLoading
    ensures s.isLoading && Fails(outcome) ==> t == s.(isLoading := false, status := FailureStatus)
    ensures s.isLoading && !Fails(outcome) ==>
              && t.status == SuccessStatus(outcome.body.mood)
              && t.recommendations == outcome.body.recommendations.GetOr([])
              && t == s.(isLoading := false, status := t.status, recommendations := t.recommendations)
  {
    if !s.isLoading then s
    else if Fails(outcome) then s.(isLoading := false, status := FailureStatus)
    else s.(isLoading := false, status := SuccessStatus(outcome.body.mood),
            recommendations := outcome.body.recommendations.GetOr([]))
  }

  /** The movies/games switch: the results are cleared and the status reset;
      channels, text, selection and loading are untouched. */
  function OnSelectKind(s: State, kind: Kind): (t: State)
    ensures t.kind == kind && t.recommendations == [] && t.status == ReadyStatus
    ensures t == s.(kind := kind, recommendations := [], status := ReadyStatus)
  {
    s.(kind := kind, recommendations := [], status := ReadyStatus)
  }

  /** A genre checkbox, shown only while movies are selected. */
  function OnToggleGenre(s: State, id: int): (t: State)
    ensures s.kind == Movies ==> t == s.(excludeGenres := GenreFilter.Toggle(s.excludeGenres, id))
    ensures s.kind == Games ==> t == s
  {
    if s.kind == Movies then s.(excludeGenres := GenreFilter.Toggle(s.excludeGenres, id)) else s
  }

  /** One event applied to the page. Typing replaces the text; a granted
      microphone request starts a recorder, whatever the toggle now says.
      Only a submit posts, only a tick sends a frame, only a chunk sends
      audio, and only a submit or a reply changes whether a request is out. */
  function Next(s: State, event: Event): (r: Step)
    ensures |r.effects| <= 1
    ensures forall i :: 0 <= i < |r.effects| ==>
              && (r.effects[i].Post? ==> event.Submit?)
              && (r.effects[i].SendFrame? ==> event.FrameTick?)
              && (r.effects[i].SendAudio? ==> event.AudioChunk?)
    ensures r.state.isLoading != s.isLoading ==> event.Submit? || event.Respond?
    ensures event.EditText? ==> r == Step(s.(text := event.text), [])
    ensures event.MicGranted? ==> r == Step(s.(recorder := Recording), [])
  {
    match event
    case EditText(text) => Step(s.(text := text), [])
    case ToggleCamera => Step(OnToggleCamera(s), [])
    case ToggleMic => Step(OnToggleMic(s), [])
    case FaceSocket(e) => Step(s.(face := OnSocket(s.face, e)), [])
    case VoiceSocket(e) => Step(s.(voice := OnSocket(s.voice, e)), [])
    case FrameTick(mounted, screenshot) => OnFrameTick(s, mounted, screenshot)
    case MicGranted => Step(s.(recorder := Recording), [])
    case MicDenied => Step(OnMicDenied(s), [])
    case AudioChunk(chunk) => OnAudioChunk(s, chunk)
    case ToggleGenre(id) => Step(OnToggleGenre(s, id), [])
    case Submit => OnSubmit(s)
    case Respond(outcome) => Step(OnRespond(s, outcome), [])
    case SelectKind(kind) => Step(OnSelectKind(s, kind), [])
  }

  /** Events applied in order; the effects of all of them, in order. */
  function Run(s: State, events: seq<Event>): Step
    decreases |events|
  {
    if |events| == 0 then Step(s, [])
    else
      var first := Next(s, events[0]);
      var rest := Run(first.state, events[1..]);
      Step(rest.state, first.effects + rest.effects)
  }

  // ----- properties of the state machine -----

  /** A channel that is on has a socket; one that is off has none that
      could send. */
  predicate ChannelConsistent(c: Channel) {
    (c.on ==> c.socket != NoSocket) && (!c.on ==> c.socket != Connecting && c.socket != Open)
  }

  /** The frame interval runs exactly while the camera is on, and both
      channels are consistent. */
  predicate Consistent(s: State) {
    ChannelConsistent(s.face) && ChannelConsistent(s.voice) && s.frameTimer == s.face.on
  }

  /** The page starts consistent: both channels off with no socket, and no
      frame interval. */
  lemma InitialConsistent()
    ensures Consistent(Initial)
  {
  }

  /** Every event keeps the page consistent. */
  lemma NextKeepsConsistent(s: State, event: Event)
    requires Consistent(s)
    ensures Consistent(Next(s, event).state)
  {
  }

  /** Only a camera toggle changes whether the camera is on; only a
      microphone toggle or refusal changes whether the microphone is. */
  lemma TogglesChangeOnlyByUser(s: State, event: Event)
    ensures !event.ToggleCamera? ==> Next(s, event).state.face.on == s.face.on
    ensures !event.ToggleMic? && !event.MicDenied? ==> Next(s, event).state.voice.on == s.voice.on
  {
  }

  /** A face event changes only the face channel, a voice event only the
      voice channel: one channel failing leaves the other and the text alone. */
  lemma ChannelsIndependent(s: State, e: SocketEvent)
    ensures Next(s, FaceSocket(e)).state == s.(face := Next(s, FaceSocket(e)).state.face)
    ensures Next(s, VoiceSocket(e)).state == s.(voice := Next(s, VoiceSocket(e)).state.voice)
    ensures e.Errored? && s.face.socket != NoSocket ==>
              Next(s, FaceSocket(e)).state.face == Channel(s.face.on, MoodError, Closed)
  {
  }

  function FrameCount(effects: seq<Effect>): nat {
    if |effects| == 0 then 0 else (if effects[0].SendFrame? then 1 else 0) + FrameCount(effects[1..])
  }

  function AudioCount(effects: seq<Effect>): nat {
    if |effects| == 0 then 0 else (if effects[0].SendAudio? then 1 else 0) + AudioCount(effects[1..])
  }

  function PostCount(effects: seq<Effect>): nat {
    if |effects| == 0 then 0 else (if effects[0].Post? then 1 else 0) + PostCount(effects[1..])
  }

  lemma {:induction false} CountsAdd(a: seq<Effect>, b: seq<Effect>)
    ensures FrameCount(a + b) == FrameCount(a) + FrameCount(b)
    ensures AudioCount(a + b) == AudioCount(a) + AudioCount(b)
    ensures PostCount(a + b) == PostCount(a) + PostCount(b)
  {
    if |a| > 0 {
      assert (a + b)[1..] == a[1..] + b;
      CountsAdd(a[1..], b);
    } else {
      assert a + b == b;
    }
  }

  /** Once the camera is off, no frame is sent until it is switched on
      again, even when stale ticks or socket callbacks arrive. */
  lemma {:induction false} NoFramesWhileCameraOff(s: State, events: seq<Event>)
    requires Consistent(s) && !s.face.on
    requires forall i :: 0 <= i < |events| ==> !events[i].ToggleCamera?
    ensures FrameCount(Run(s, events).effects) == 0
    ensures !Run(s, events).state.face.on
    decreases |events|
  {
    if |events| > 0 {
      var first := Next(s, events[0]);
      NextKeepsConsistent(s, events[0]);
      TogglesChangeOnlyByUser(s, events[0]);
      NoFramesWhileCameraOff(first.state, events[1..]);
      CountsAdd(first.effects, Run(first.state, events[1..]).effects);
    }
  }

  /** Once the microphone is off, no audio is sent until it is switched on
      again, even when a late microphone grant starts a recorder. */
  lemma {:induction false} NoAudioWhileMicOff(s: State, events: seq<Event>)
    requires Consistent(s) && !s.voice.on
    requires forall i :: 0 <= i < |events| ==> !events[i].ToggleMic?
    ensures AudioCount(Run(s, events).effects) == 0
    ensures !Run(s, events).state.voice.on
    decreases |events|
  {
    if |events| > 0 {
      var first := Next(s, events[0]);
      NextKeepsConsistent(s, events[0]);
      TogglesChangeOnlyByUser(s, events[0]);
      NoAudioWhileMicOff(first.state, events[1..]);
      CountsAdd(first.effects, Run(first.state, events[1..]).effects);
    }
  }

  /** From the page's start, no frame and no audio is sent before the
      user first switches the camera, or the microphone, on. */
  lemma NothingSentBeforeFirstToggle(events: seq<Event>)
    ensures (forall i :: 0 <= i < |events| ==> !events[i].ToggleCamera?) ==> FrameCount(Run(Initial, events).effects) == 0
    ensures (forall i :: 0 <= i < |events| ==> !events[i].ToggleMic?) ==> AudioCount(Run(Initial, events).effects) == 0
  {
    InitialConsistent();
    if forall i :: 0 <= i < |events| ==> !events[i].ToggleCamera? {
      NoFramesWhileCameraOff(Initial, events);
    }
    if forall i :: 0 <= i < |events| ==> !events[i].ToggleMic? {
      NoAudioWhileMicOff(Initial, events);
    }
  }

  function ResponseCount(events: seq<Event>): nat {
    if |events| == 0 then 0 else (if events[0].Respond? then 1 else 0) + ResponseCount(events[1..])
  }

  /** One event posts at most one request, and only when none is out. */
  lemma PostGate(s: State, event: Event)
    ensures var next := Next(s, event);
            PostCount(next.effects) + (if next.state.isLoading then 0 else 1)
              <= (if event.Respond? then 1 else 0) + (if s.isLoading then 0 else 1)
    ensures Next(s, event).state.isLoading ==> s.isLoading || PostCount(Next(s, event).effects) == 1
  {
    assert PostCount([]) == 0;
    match event {
      case Submit =>
        assert PostCount([Post(Endpoint(s.kind), BuildPayload(s))]) == 1;
      case FrameTick(m, shot) =>
        assert PostCount([SendFrame(shot.GetOr(""))]) == 0;
      case AudioChunk(chunk) =>
        assert PostCount([SendAudio(chunk)]) == 0;
      case _ =>
    }
  }

  /** The button being disabled while loading keeps at most one request
      outstanding: every request after the first waits for a reply. */
  lemma {:induction false} OneRequestAtATime(s: State, events: seq<Event>)
    ensures PostCount(Run(s, events).effects) <= ResponseCount(events) + (if s.isLoading then 0 else 1)
    ensures Run(s, events).state.isLoading ==> PostCount(Run(s, events).effects) + (if s.isLoading then 1 else 0) >= 1
    decreases |events|
  {
    if |events| > 0 {
      var first := Next(s, events[0]);
      PostGate(s, events[0]);
      OneRequestAtATime(first.state, events[1..]);
      CountsAdd(first.effects, Run(first.state, events[1..]).effects);
    }
  }

  /** Enabling the camera, reading "angry", then disabling it leaves "..."
      and sends nothing for a tick that fires afterwards. */
  lemma FaceSessionScenario()
    ensures var r := Run(Initial, [ToggleCamera, FaceSocket(Opened), FaceSocket(Message("angry")),
                                   ToggleCamera, FrameTick(true, Some("frame"))]);
            r.state.face == Channel(false, MoodOff, Closed) && r.effects == []
  {
  }

  /** Switching the camera off while its socket is still connecting makes
      the browser report an error, which leaves "Error!" as the label of a
      camera that is off. The label is hidden: the button shows the face
      mood only while the camera is on, a request sends `null` for it, and
      switching the camera on replaces it with "Connecting...". */
  lemma ErrorAfterDisableIsHidden()
    ensures var r := Run(Initial, [ToggleCamera, ToggleCamera, FaceSocket(Errored)]);
            && !r.state.face.on && r.state.face.mood == MoodError
            && BuildPayload(r.state).faceMood.None?
            && Next(r.state, ToggleCamera).state.face.mood == MoodConnecting
  {
  }

  /** A request whose text is edited while it is out: the page posts the
      body as it was at submit time, and the reply lands on the edited
      state. */
  lemma EditWhileLoading(s: State, edit: string, outcome: HttpOutcome)
    requires !s.isLoading
    ensures Run(s, [Submit, EditText(edit), Respond(outcome)])
            == Step(OnRespond(OnSubmit(s).state.(text := edit), outcome), [Post(Endpoint(s.kind), BuildPayload(s))])
  {
    var s2 := OnSubmit(s).state.(text := edit);
    var s3 := OnRespond(s2, outcome);
    var events := [Submit, EditText(edit), Respond(outcome)];
    assert Run(s2, events[2..]) == Step(s3, []);
    assert Run(OnSubmit(s).state, events[1..]) == Step(s3, []);
  }

  /** A reply is not matched to the request it answers: switching to games
      while a movie request is out still fills the results with the movie
      reply. */
  lemma StaleReplyAfterKindSwitch(s: State, body: RecBody)
    requires !s.isLoading && s.kind == Movies
    requires !Truthy(body.error) && body.recommendations.Some?
    ensures var r := Run(s, [Submit, SelectKind(Games), Respond(Delivered(body))]);
            r.state.kind == Games && r.state.recommendations == body.recommendations.value
            && r.effects == [Post(MoviesEndpoint, BuildPayload(s))]
  {
    var events := [Submit, SelectKind(Games), Respond(Delivered(body))];
    var s1 := OnSubmit(s).state;
    var s2 := OnSelectKind(s1, Games);
    var s3 := OnRespond(s2, Delivered(body));
    assert Run(s2, events[2..]) == Step(s3, []);
    assert Run(s1, events[1..]) == Step(s3, []);
  }
}
