/** The objects `_setup*` binds to: a YouTube IFrame API player, a Vimeo
    Player API player and the self-hosted `<video>` element, each reduced to
    the listeners the element registers on it and the `play` calls it makes. */
module Backends {
  import opened Wrappers
  import opened Events

  /** The `play`, `pause` and `ended` notifications of a Vimeo player or a
      `<video>` element. */
  datatype NativeEvent = NativePlay | NativePause | NativeEnded

  /** One listener for each notification: what a setup registers. */
  const OneOfEach: multiset<NativeEvent> := multiset{NativePlay, NativePause, NativeEnded}

  /** The unified event a notification is forwarded as. */
  function ForwardedKind(e: NativeEvent): (k: EventKind)
    ensures k != VideoLoad
    ensures (k == VideoPlay <==> e == NativePlay) && (k == VideoPause <==> e == NativePause)
  {
    match e
    case NativePlay => VideoPlay
    case NativePause => VideoPause
    case NativeEnded => VideoEnded
  }

  /** `YT.PlayerState` */
  datatype YouTubeState = Unstarted | Ended | Playing | Paused | Buffering | Cued

  /** What `onStateChange` emits for a state: only playing, paused and ended
      are forwarded. */
  function StateEvent(s: YouTubeState): (k: Option<EventKind>)
    ensures k.Some? <==> s in {Playing, Paused, Ended}
    ensures k.Some? ==> k.value != VideoLoad
  {
    match s
    case Playing => Some(VideoPlay)
    case Paused => Some(VideoPause)
    case Ended => Some(VideoEnded)
    case _ => None
  }

  /** A `YT.Player` on the iframe of container content `frame`: `apiBound`
      once its methods (`playVideo`) exist, which is by `onReady`. */
  datatype YouTubePlayer = YouTubePlayer(serial: nat, frame: nat, apiBound: bool, playCalls: nat)

  /** A `Vimeo.Player` on the iframe of container content `frame`, and the
      element's listeners on it. */
  datatype VimeoPlayer = VimeoPlayer(serial: nat, frame: nat, listeners: multiset<NativeEvent>, playCalls: nat)

  /** The `#selfHostedPlayer` element: its `data-listeners-attached` marker and
      the element's listeners on it. */
  datatype MediaElement = MediaElement(listenersAttached: bool, listeners: multiset<NativeEvent>, playCalls: nat)

  /** `off('play')`, `off('pause')`, `off('ended')` */
  function Unbind(p: VimeoPlayer): (q: VimeoPlayer)
    ensures q.listeners == multiset{} && q.serial == p.serial && q.frame == p.frame && q.playCalls == p.playCalls
  {
    p.(listeners := multiset{})
  }

  /** `new Vimeo.Player(iframe)`, then `play()` when the iframe's `src`
      contains `autoplay=1`, then one `on` for each notification. */
  function BindVimeo(serial: nat, frame: nat, autoplay: bool): (p: VimeoPlayer)
    ensures p.serial == serial && p.frame == frame && p.listeners == OneOfEach
    ensures p.playCalls == (if autoplay then 1 else 0)
  {
    VimeoPlayer(serial, frame, OneOfEach, if autoplay then 1 else 0)
  }

  /** `_setupSelfHostedPlayer` on the element: marks it and adds one listener
      per notification, unless it is already marked. */
  function AttachMedia(v: MediaElement): (w: MediaElement)
    ensures w.listenersAttached && w.playCalls == v.playCalls
    ensures !v.listenersAttached ==> w.listeners == v.listeners + OneOfEach
    ensures v.listenersAttached ==> w == v
  {
    if v.listenersAttached then v else v.(listenersAttached := true, listeners := v.listeners + OneOfEach)
  }

  /** The marker makes the setup idempotent: a second run adds nothing. */
  lemma AttachMediaIdempotent(v: MediaElement)
    ensures AttachMedia(AttachMedia(v)) == AttachMedia(v)
  {
  }

  /** On a fresh element the setup leaves exactly one listener of each kind. */
  lemma AttachFreshMedia(playCalls: nat)
    ensures AttachMedia(MediaElement(false, multiset{}, playCalls)).listeners == OneOfEach
  {
  }

  /** A listener set the element can leave on a player or element: none, or
      one of each. */
  predicate WellBound(ls: multiset<NativeEvent>) {
    ls == multiset{} || ls == OneOfEach
  }
}
