/** The `VideoPlayer` custom element of lib/video-player.ts: its attributes,
    the shadow tree a render writes, the backend players its timers bind, and
    the `video-*` events it dispatches, with the play debounce and the YouTube
    readiness handshake. */
module VideoPlayerElement {
  import opened Wrappers
  import opened Text
  import opened Resolver
  import opened Markup
  import opened Events
  import opened Backends
  import opened Shadow
  import Page

  /** `video-play` events in a log are at least the debounce interval apart. */
  ghost predicate PlaysSpacedLog(events: seq<Event>) {
    forall i, j :: 0 <= i < j < |events| && events[i].kind == VideoPlay && events[j].kind == VideoPlay ==>
      events[j].timeStamp >= events[i].timeStamp + DebounceInterval
  }

  /** The document's scripts after a render of a `src` of type `t`: the probe
      for that type's API, and none for a self-hosted source. */
  function ScriptsAfterRender(scripts: seq<string>, youTubeApi: bool, vimeoApi: bool, t: PlayerType): (r: seq<string>)
    ensures t == SelfHosted ==> r == scripts
    ensures t != SelfHosted ==> r == scripts || r == scripts + [if t == YouTube then Page.YouTubeApiUrl else Page.VimeoApiUrl]
  {
    match t
    case YouTube => Page.InjectScript(scripts, youTubeApi, Page.YouTubeApiUrl)
    case Vimeo => Page.InjectScript(scripts, vimeoApi, Page.VimeoApiUrl)
    case SelfHosted => scripts
  }

  /** However many renders run, each API has at most one script tag, as long
      as the page did not start with two. */
  lemma RenderKeepsOneTagPerApi(scripts: seq<string>, youTubeApi: bool, vimeoApi: bool, t: PlayerType)
    requires multiset(scripts)[Page.YouTubeApiUrl] <= 1 && multiset(scripts)[Page.VimeoApiUrl] <= 1
    ensures var r := ScriptsAfterRender(scripts, youTubeApi, vimeoApi, t);
            multiset(r)[Page.YouTubeApiUrl] <= 1 && multiset(r)[Page.VimeoApiUrl] <= 1
  {
    match t
    case YouTube =>
      Page.InjectKeepsAtMostOne(scripts, youTubeApi, Page.YouTubeApiUrl);
      Page.InjectLeavesOthers(scripts, youTubeApi, Page.YouTubeApiUrl, Page.VimeoApiUrl);
    case Vimeo =>
      Page.InjectKeepsAtMostOne(scripts, vimeoApi, Page.VimeoApiUrl);
      Page.InjectLeavesOthers(scripts, vimeoApi, Page.VimeoApiUrl, Page.YouTubeApiUrl);
    case SelfHosted =>
  }

  /** Every Vimeo embed `_loadVideo` builds asks for autoplay in its `src`
      exactly when it was built with autoplay. */
  lemma LoadedVimeoFrameAutoplays(c: Config, autoplay: bool, decode: Decoders)
    ensures VimeoFrameAutoplays(LoadEmbed(c, autoplay, decode))
  {
    LoadEmbedFrames(c, autoplay, decode);
    if DetectPlayerType(c.src) == Vimeo && ExtractVimeoID(c.src) != "" {
      ExtractVimeoIDShape(c.src);
      VimeoEmbedUrlAutoplay(ExtractVimeoID(c.src), autoplay);
    }
  }

  /** The events one activation dispatches: for YouTube, the poster-click
      play unless the debounce drops it. The second play of the ready path
      never gets through. */
  function ActivationEvents(t: PlayerType, lastPlay: int, now: int, detail: Detail): (r: seq<Event>)
    ensures |r| <= 1
    ensures |r| == 1 <==> t == YouTube && now - lastPlay >= DebounceInterval
  {
    if t == YouTube && PlayGate(lastPlay, VideoPlay, true, now).Pass?
    then [Event(VideoPlay, detail, now)] else []
  }

  class VideoPlayer {
    /** The page the element lives on. */
    const doc: Page.Document
    /** `JSON.parse` as the element uses it. */
    const decode: Decoders

    var attrs: Attributes
    var shadow: ShadowTree

    // Private fields of the element.
    var playerType: PlayerType
    var lastPlay: int
    var ytReady: bool
    var playOnReady: bool
    var yt: Option<YouTubePlayer>
    var vimeo: Option<VimeoPlayer>

    /** Players that a later Vimeo setup replaced. */
    var retiredVimeo: seq<VimeoPlayer>
    /** The iframes of the YouTube initialisations chained onto
        `onYouTubeIframeAPIReady`, as container contents, in order. */
    var ytAwaiting: seq<nat>
    /** Identity for the next backend player created. */
    var nextSerial: nat
    /** Identity of the container's current content: every write of
        `container.innerHTML` makes a new one. */
    var content: nat
    /** The 500 ms setup timers, in the order they fire. */
    var pending: seq<PlayerType>
    /** Every event dispatched on the element, in order. */
    var events: seq<Event>

    /** The shadow tree is the one the attributes call for: the markup of
        the last render, its listeners, and the embed of an eager or an
        activated load. */
    ghost predicate Rendered()
      reads this`attrs, this`shadow
    {
      var t := shadow;
      t.config == ReadConfig(attrs)
      && t.shell == BuildShell(t.config, decode)
      && t.targets == ActivationTargets(t.shell)
      && t.listeners == ListenersFor(t.targets)
      && (t.embed == LoadEmbed(t.config, false, decode) || t.embed == LoadEmbed(t.config, true, decode))
    }

    /** What every handler relies on: the tree is coherent, the player type
        is that of the rendered source, and a Vimeo iframe asks for autoplay
        exactly when it was built to. */
    ghost predicate Consistent()
      reads this`shadow, this`playerType
    {
      Coherent(shadow)
      && playerType == DetectPlayerType(shadow.config.src)
      && VimeoFrameAutoplays(shadow.embed)
    }

    /** The listeners the element holds on its players are as setups leave
        them, and every player was built on container content written by
        now. */
    ghost predicate HandlesBound()
      reads this`vimeo, this`retiredVimeo, this`shadow, this`yt, this`ytAwaiting, this`content
    {
      PlayersBound(vimeo, retiredVimeo, shadow.video)
      && (yt.Some? ==> yt.value.frame <= content)
      && (vimeo.Some? ==> vimeo.value.frame <= content)
      && forall k :: 0 <= k < |ytAwaiting| ==> ytAwaiting[k] <= content
    }

    /** The debounce, seen in the event log: plays are spaced, and the mark is
        at or past every dispatched play. */
    ghost predicate LogSpaced()
      reads this`events, this`lastPlay
    {
      PlaysSpacedLog(events)
      && forall k :: 0 <= k < |events| && events[k].kind == VideoPlay ==> lastPlay >= events[k].timeStamp
    }

    ghost predicate Valid()
      reads this`shadow, this`playerType, this`vimeo, this`retiredVimeo, this`events, this`lastPlay,
            this`yt, this`ytAwaiting, this`content
    {
      Consistent() && HandlesBound() && LogSpaced()
    }

    /** The container still holds the iframe the YouTube player was built
        on. A player talks to the page through its iframe, so once the
        iframe is replaced none of its callbacks can arrive. */
    predicate YouTubeLive()
      reads this`yt, this`shadow, this`content
    {
      yt.Some? && yt.value.frame == content && shadow.embed.Frame? && shadow.embed.backend == YouTube
    }

    /** The container still holds the iframe the Vimeo player was built on. */
    predicate VimeoLive()
      reads this`vimeo, this`shadow, this`content
    {
      vimeo.Some? && vimeo.value.frame == content && shadow.embed.Frame? && shadow.embed.backend == Vimeo
    }

    /** The state a render leaves alone: the attributes, the debounce and
        the event log, and everything the backend setups own. */
    twostate predicate RenderLeavesAlone()
      reads this
    {
      attrs == old(attrs) && events == old(events) && lastPlay == old(lastPlay)
      && ytReady == old(ytReady) && playOnReady == old(playOnReady) && ytAwaiting == old(ytAwaiting)
      && yt == old(yt) && vimeo == old(vimeo) && retiredVimeo == old(retiredVimeo) && nextSerial == old(nextSerial)
    }

    /** The state an emission leaves alone: all but the debounce mark and
        the event log. */
    twostate predicate EmitLeavesAlone()
      reads this
    {
      attrs == old(attrs) && shadow == old(shadow) && playerType == old(playerType) && pending == old(pending)
      && ytReady == old(ytReady) && playOnReady == old(playOnReady) && ytAwaiting == old(ytAwaiting)
      && yt == old(yt) && vimeo == old(vimeo) && retiredVimeo == old(retiredVimeo) && nextSerial == old(nextSerial)
      && content == old(content)
    }

    /** What `_render` does to a rendered element: the overlay back in place,
        the container hidden exactly when a poster covers it, the embed
        loaded without autoplay and its setup queued, the API script probed
        for, and new container content, so that no earlier player is live.
        The debounce, the log and the player handles with their ready flags
        are kept. */
    twostate predicate Rerendered()
      reads this, doc
    {
      !shadow.posterHidden && !shadow.playButtonHidden
      && shadow.containerHidden == ContainerStartsHidden(shadow.shell)
      && shadow.embed == LoadEmbed(shadow.config, false, decode)
      && shadow.video == (if shadow.embed.VideoTag? then Some(FreshVideo) else None)
      && playerType == DetectPlayerType(shadow.config.src)
      && pending == old(pending) + SetupList(shadow.embed)
      && content > old(content) && !YouTubeLive() && !VimeoLive()
      && doc.scripts == ScriptsAfterRender(old(doc.scripts), old(doc.ytGlobal), old(doc.vimeoApi), playerType)
      && doc.ytGlobal == old(doc.ytGlobal) && doc.ytPlayer == old(doc.ytPlayer) && doc.vimeoApi == old(doc.vimeoApi)
      && events == old(events) && lastPlay == old(lastPlay)
      && ytReady == old(ytReady) && playOnReady == old(playOnReady) && ytAwaiting == old(ytAwaiting)
      && yt == old(yt) && vimeo == old(vimeo) && retiredVimeo == old(retiredVimeo) && nextSerial == old(nextSerial)
    }

    /** What the activation handler does: the overlay hidden and the
        container shown, then per player type of the render: for YouTube a
        reload with autoplay, the poster-click play, and `playVideo` if the
        player is bound and ready or else the request for `onReady` to play;
        for Vimeo `play()` on the player if there is one; for self-hosted
        `play()` on the `<video>`. */
    twostate predicate Activated(now: int)
      reads this
    {
      playerType == old(playerType)
      && events == old(events) + ActivationEvents(old(playerType), old(lastPlay), now, CurrentDetail())
      && ytReady == old(ytReady) && ytAwaiting == old(ytAwaiting) && retiredVimeo == old(retiredVimeo)
      && nextSerial == old(nextSerial) && attrs == old(attrs)
      && (old(playerType) == YouTube ==>
            shadow == WithEmbed(Revealed(old(shadow)), LoadEmbed(old(shadow).config, true, decode))
            && content == old(content) + 1
            && pending == old(pending) + SetupList(shadow.embed) && vimeo == old(vimeo)
            && lastPlay == (if now - old(lastPlay) >= DebounceInterval then PlayMark(now, true) else old(lastPlay))
            && if old(yt).Some? && old(yt).value.apiBound && old(ytReady)
               then yt == Some(old(yt).value.(playCalls := old(yt).value.playCalls + 1)) && playOnReady == old(playOnReady)
               else yt == old(yt) && playOnReady)
      && (old(playerType) != YouTube ==>
            content == old(content) && pending == old(pending) && yt == old(yt)
            && playOnReady == old(playOnReady) && lastPlay == old(lastPlay))
      && (old(playerType) == Vimeo ==>
            shadow == Revealed(old(shadow))
            && vimeo == (if old(vimeo).Some? then Some(old(vimeo).value.(playCalls := old(vimeo).value.playCalls + 1)) else None))
      && (old(playerType) == SelfHosted ==>
            vimeo == old(vimeo)
            && shadow == Revealed(old(shadow)).(video := if old(shadow).video.Some?
                                                        then Some(old(shadow).video.value.(playCalls := old(shadow).video.value.playCalls + 1))
                                                        else None))
    }

    /** What `_setupYouTubePlayer` leaves when its timer fires: with
        `#ytPlayer` embedded, a new player on it when `YT.Player` exists, and
        otherwise that iframe waiting for `onYouTubeIframeAPIReady`. The tree
        and the Vimeo players are kept. */
    twostate predicate YouTubeSetUp()
      reads this, doc
    {
      var frame := shadow.embed.Frame? && shadow.embed.backend == YouTube;
      shadow == old(shadow) && vimeo == old(vimeo) && retiredVimeo == old(retiredVimeo)
      && (!frame ==> yt == old(yt) && nextSerial == old(nextSerial) && ytAwaiting == old(ytAwaiting))
      && (frame && doc.YouTubeConstructible() ==>
            yt == Some(YouTubePlayer(old(nextSerial), content, false, 0)) && nextSerial == old(nextSerial) + 1
            && ytAwaiting == old(ytAwaiting) && YouTubeLive())
      && (frame && !doc.YouTubeConstructible() ==>
            yt == old(yt) && nextSerial == old(nextSerial) && ytAwaiting == old(ytAwaiting) + [content])
    }

    /** What `_setupVimeoPlayer` leaves when its timer fires: with a Vimeo
        iframe embedded, the old player detached and, when `window.Vimeo`
        exists, a new live player with one listener per notification that
        plays when the iframe asks for autoplay. The tree and the YouTube
        state are kept. */
    twostate predicate VimeoSetUp()
      reads this, doc
    {
      var frame := shadow.embed.Frame? && shadow.embed.backend == Vimeo;
      shadow == old(shadow) && yt == old(yt) && ytAwaiting == old(ytAwaiting)
      && (!frame ==> vimeo == old(vimeo) && retiredVimeo == old(retiredVimeo) && nextSerial == old(nextSerial))
      && (frame && !doc.vimeoApi ==>
            vimeo == (if old(vimeo).Some? then Some(Unbind(old(vimeo).value)) else None)
            && retiredVimeo == old(retiredVimeo) && nextSerial == old(nextSerial))
      && (frame && doc.vimeoApi ==>
            vimeo == Some(BindVimeo(old(nextSerial), content, shadow.embed.allowAutoplay)) && VimeoLive()
            && retiredVimeo == old(retiredVimeo) + (if old(vimeo).Some? then [Unbind(old(vimeo).value)] else [])
            && nextSerial == old(nextSerial) + 1)
    }

    /** What `_setupSelfHostedPlayer` leaves when its timer fires: the
        `<video>`, if there is one, with its listeners attached, and the
        player handles kept. */
    twostate predicate SelfHostedSetUp()
      reads this
    {
      yt == old(yt) && ytAwaiting == old(ytAwaiting) && vimeo == old(vimeo)
      && retiredVimeo == old(retiredVimeo) && nextSerial == old(nextSerial)
      && shadow == (if old(shadow).video.Some?
                    then old(shadow).(video := Some(AttachMedia(old(shadow).video.value)))
                    else old(shadow))
    }

    /** The detail `_emitEvent` builds now: timing data is present for a
        self-hosted source with a video, and for YouTube and Vimeo once a
        player exists. */
    function CurrentDetail(): (d: Detail)
      reads this`playerType, this`attrs, this`shadow, this`yt, this`vimeo
      ensures d.playerType == playerType && d.src == GetAttribute(attrs, "src")
      ensures d.timed <==> (match playerType
                            case SelfHosted => shadow.video.Some?
                            case YouTube => yt.Some?
                            case Vimeo => vimeo.Some?)
    {
      Detail(playerType, GetAttribute(attrs, "src"),
             match playerType
             case SelfHosted => shadow.video.Some?
             case YouTube => yt.Some?
             case Vimeo => vimeo.Some?)
    }

    /** `new VideoPlayer()` on an element holding `attrs`: renders at once. */
    constructor(doc: Page.Document, decode: Decoders, attrs: Attributes)
      modifies doc
      ensures Valid() && Rendered() && this.doc == doc && this.decode == decode && this.attrs == attrs
      ensures playerType == DetectPlayerType(ReadConfig(attrs).src)
      ensures shadow.embed == LoadEmbed(ReadConfig(attrs), false, decode)
      ensures pending == SetupList(shadow.embed) && events == []
      ensures lastPlay == 0 && !ytReady && !playOnReady && yt.None? && vimeo.None? && ytAwaiting == []
      ensures doc.scripts == ScriptsAfterRender(old(doc.scripts), old(doc.ytGlobal), old(doc.vimeoApi), playerType)
    {
      this.doc := doc;
      this.decode := decode;
      this.attrs := attrs;
      shadow := Written(ReadConfig(attrs), BuildShell(ReadConfig(attrs), decode), []);
      playerType := SelfHosted;
      lastPlay := 0;
      ytReady, playOnReady := false, false;
      yt, vimeo, retiredVimeo := None, None, [];
      ytAwaiting, nextSerial, content := [], 0, 0;
      pending, events := [], [];
      new;
      Render();
    }

    /** The browser's `setAttribute(name, v)` (or `removeAttribute(name)` for
        `None`), then `attributeChangedCallback` for an observed name. */
    method SetAttribute(name: string, value: Option<string>)
      requires Valid() && Rendered()
      modifies this, doc
      ensures Valid() && Rendered()
      ensures attrs == SetAttr(old(attrs), name, value)
      ensures GetAttribute(old(attrs), name) == value || name !in ObservedAttributes ==>
                shadow == old(shadow) && pending == old(pending) && doc.scripts == old(doc.scripts)
                && content == old(content) && playerType == old(playerType)
      ensures GetAttribute(old(attrs), name) != value && name in ObservedAttributes ==> Rerendered()
      ensures events == old(events) && lastPlay == old(lastPlay)
    {
      var previous := GetAttribute(attrs, name);
      var before := attrs;
      attrs := SetAttr(attrs, name, value);
      if name in ObservedAttributes {
        if previous == value {
          SetAttrSame(before, name, value);
        }
        AttributeChangedCallback(name, previous, value);
      } else {
        SetAttrUnobserved(before, name, value);
      }
    }

    /** `attributeChangedCallback`: the attribute map already holds the new
        value; a change re-renders. */
    method AttributeChangedCallback(name: string, oldValue: Option<string>, newValue: Option<string>)
      requires HandlesBound() && LogSpaced()
      requires oldValue == newValue ==> Valid() && Rendered()
      modifies this, doc
      ensures Valid() && Rendered()
      ensures oldValue == newValue ==> unchanged(this) && unchanged(doc`scripts)
      ensures oldValue != newValue ==> Rerendered()
      ensures attrs == old(attrs) && events == old(events) && lastPlay == old(lastPlay)
    {
      if oldValue != newValue {
        Render();
      }
    }

    /** `_render`: rewrites the shadow tree from the attributes, probes for
        the API script of the source type, loads the video without autoplay
        and leaves the overlay in place, then attaches the activation
        listeners. */
    method Render()
      requires HandlesBound() && LogSpaced()
      modifies this, doc
      ensures Valid() && Rendered() && Rerendered()
      ensures attrs == old(attrs)
    {
      WriteTree();
      LoadVideo(false, false);
      AttachActivationListeners();
    }

    /** The `innerHTML` write of `_render` and its script probe. */
    method WriteTree()
      modifies this`shadow, this`playerType, doc
      ensures var c := ReadConfig(attrs); shadow == Written(c, BuildShell(c, decode), ActivationTargets(BuildShell(c, decode)))
      ensures playerType == DetectPlayerType(shadow.config.src)
      ensures doc.scripts == ScriptsAfterRender(old(doc.scripts), doc.ytGlobal, doc.vimeoApi, playerType)
      ensures doc.ytGlobal == old(doc.ytGlobal) && doc.ytPlayer == old(doc.ytPlayer) && doc.vimeoApi == old(doc.vimeoApi)
      ensures RenderLeavesAlone() && pending == old(pending) && content == old(content)
    {
      var c := ReadConfig(attrs);
      var s := BuildShell(c, decode);
      shadow := Written(c, s, ActivationTargets(s));
      InjectApiScripts();
    }

    /** The script probe of `_render`: the player type of the source, and the
        API script for it when the page has neither the API global nor its
        tag. */
    method InjectApiScripts()
      modifies this`playerType, doc
      ensures playerType == DetectPlayerType(shadow.config.src)
      ensures doc.scripts == ScriptsAfterRender(old(doc.scripts), doc.ytGlobal, doc.vimeoApi, playerType)
      ensures doc.ytGlobal == old(doc.ytGlobal) && doc.ytPlayer == old(doc.ytPlayer) && doc.vimeoApi == old(doc.vimeoApi)
      ensures RenderLeavesAlone()
    {
      playerType := DetectPlayerType(shadow.config.src);
      if playerType == YouTube {
        doc.InjectApiScript(Page.YouTubeApi);
      }
      if playerType == Vimeo {
        doc.InjectApiScript(Page.VimeoApi);
      }
    }

    /** `_loadVideo`, with the `src`, `sources` and `allowfullscreen` the
        render read: new container content holding the embed for the source,
        the setup timer for it, and, when asked, the overlay hidden. */
    method LoadVideo(autoplay: bool, removeOverlay: bool)
      requires HandlesBound() && LogSpaced() && Coherent(shadow)
      modifies this`playerType, this`shadow, this`pending, this`content
      ensures Valid() && content == old(content) + 1 && !YouTubeLive() && !VimeoLive()
      ensures var loaded := WithEmbed(old(shadow), LoadEmbed(old(shadow).config, autoplay, decode));
              shadow == if removeOverlay then WithoutOverlay(loaded) else loaded
      ensures pending == old(pending) + SetupList(shadow.embed)
      ensures RenderLeavesAlone()
    {
      var e := LoadEmbed(shadow.config, autoplay, decode);
      var t := if removeOverlay then WithoutOverlay(WithEmbed(shadow, e)) else WithEmbed(shadow, e);
      LoadKeepsBound(shadow, e, vimeo, retiredVimeo);
      LoadedVimeoFrameAutoplays(shadow.config, autoplay, decode);
      playerType, shadow, pending, content := DetectPlayerType(shadow.config.src), t, pending + SetupList(e), content + 1;
    }

    /** The `forEach` over the activation targets: a click and a keydown
        listener on each. */
    method AttachActivationListeners()
      modifies this`shadow
      ensures shadow == old(shadow).(listeners := ListenersFor(old(shadow).targets))
      ensures RenderLeavesAlone()
    {
      var ts := shadow.targets;
      var ls := [];
      var i := 0;
      while i < |ts|
        invariant 0 <= i <= |ts|
        invariant ls == ListenersFor(ts[..i]) && shadow == old(shadow)
      {
        ListenersForAppend(ts[..i], ts[i]);
        assert ts[..i + 1] == ts[..i] + [ts[i]];
        ls := ls + [Listener(ts[i], Click), Listener(ts[i], KeyDown)];
        i := i + 1;
      }
      assert ts[..i] == ts;
      shadow := shadow.(listeners := ls);
    }

    /** A click on `t`: runs the activation handler if `t` has one. */
    method OnClick(t: Target, now: int)
      requires Valid()
      modifies this`shadow, this`playerType, this`pending, this`lastPlay, this`events, this`yt,
               this`playOnReady, this`vimeo, this`content
      ensures Valid()
      ensures Listener(t, Click) !in old(shadow).listeners ==> unchanged(this)
      ensures Listener(t, Click) in old(shadow).listeners ==> Activated(now)
    {
      if Listener(t, Click) in shadow.listeners {
        Activate(now);
      }
    }

    /** A keydown on `t`: Enter and Space run the activation handler. */
    method OnKeyDown(t: Target, key: string, now: int)
      requires Valid()
      modifies this`shadow, this`playerType, this`pending, this`lastPlay, this`events, this`yt,
               this`playOnReady, this`vimeo, this`content
      ensures Valid()
      ensures Listener(t, KeyDown) !in old(shadow).listeners || (key != "Enter" && key != " ") ==> unchanged(this)
      ensures Listener(t, KeyDown) in old(shadow).listeners && (key == "Enter" || key == " ") ==> Activated(now)
    {
      if Listener(t, KeyDown) in shadow.listeners && (key == "Enter" || key == " ") {
        Activate(now);
      }
    }

    /** The activation handler. It removes the overlay and reveals the
        container. For YouTube it reloads with autoplay, emits the
        poster-click play and then plays at once if the player is ready, or
        asks `onReady` to. For Vimeo and self-hosted it only calls the
        player's `play`, whose own event reports the play. */
    method Activate(now: int)
      requires Valid()
      modifies this`shadow, this`playerType, this`pending, this`lastPlay, this`events, this`yt,
               this`playOnReady, this`vimeo, this`content
      ensures Valid() && Activated(now)
    {
      if playerType == YouTube {
        PlayYouTube(now);
      } else {
        ActivateOther(now);
      }
    }

    /** The activation handler for a Vimeo or self-hosted source: `play()`
        on the player or the `<video>`, if there is one. */
    method ActivateOther(now: int)
      requires Valid() && playerType != YouTube
      modifies this`shadow, this`vimeo
      ensures Valid() && Activated(now)
    {
      shadow := Revealed(shadow);
      if playerType == Vimeo && vimeo.Some? {
        vimeo := Some(vimeo.value.(playCalls := vimeo.value.playCalls + 1));
      } else if playerType == SelfHosted && shadow.video.Some? {
        shadow := shadow.(video := Some(shadow.video.value.(playCalls := shadow.video.value.playCalls + 1)));
      }
    }

    /** The YouTube branch of the activation handler: the overlay removed,
        the reload with autoplay, the poster-click play, then the play
        through the player. */
    method PlayYouTube(now: int)
      requires Valid() && playerType == YouTube
      modifies this`shadow, this`playerType, this`pending, this`lastPlay, this`events, this`yt, this`playOnReady,
               this`content
      ensures Valid() && Activated(now)
    {
      ReloadWithAutoplay(now);
      PlayWhenReady(now);
    }

    /** The reveal and reload of the YouTube branch with its poster-click
        play, after which the debounce window is open. */
    method ReloadWithAutoplay(now: int)
      requires Valid() && playerType == YouTube
      modifies this`shadow, this`playerType, this`pending, this`lastPlay, this`events, this`content
      ensures Valid() && playerType == YouTube && content == old(content) + 1
      ensures shadow == WithEmbed(Revealed(old(shadow)), LoadEmbed(old(shadow).config, true, decode))
      ensures pending == old(pending) + SetupList(shadow.embed)
      ensures events == old(events) + ActivationEvents(YouTube, old(lastPlay), now, CurrentDetail())
      ensures lastPlay == (if now - old(lastPlay) >= DebounceInterval then PlayMark(now, true) else old(lastPlay))
      ensures now - lastPlay < DebounceInterval
    {
      shadow := Revealed(shadow);
      playerType := DetectPlayerType(shadow.config.src);
      LoadVideo(true, true);
      EmitEvent(VideoPlay, true, now);
    }

    /** `playVideo()` and a second poster-click play when the player is
        ready, or else the request for `onReady` to play. Right after the
        first poster-click play the debounce always drops the second. */
    method PlayWhenReady(now: int)
      requires Valid() && now - lastPlay < DebounceInterval
      modifies this`lastPlay, this`events, this`yt, this`playOnReady
      ensures Valid()
      ensures events == old(events) && lastPlay == old(lastPlay)
      ensures if old(yt).Some? && old(yt).value.apiBound && ytReady
              then yt == Some(old(yt).value.(playCalls := old(yt).value.playCalls + 1)) && playOnReady == old(playOnReady)
              else yt == old(yt) && playOnReady
    {
      if yt.Some? && yt.value.apiBound {
        if ytReady {
          yt := Some(yt.value.(playCalls := yt.value.playCalls + 1));
          EmitEvent(VideoPlay, true, now);
        } else {
          playOnReady := true;
        }
      } else {
        playOnReady := true;
      }
    }

    /** `_emitEvent`: the debounce, then one event with the current detail. */
    method EmitEvent(kind: EventKind, initialClick: bool, now: int)
      requires Valid()
      modifies this`lastPlay, this`events
      ensures Valid()
      ensures PlayGate(old(lastPlay), kind, initialClick, now).Drop? ==>
                events == old(events) && lastPlay == old(lastPlay)
      ensures PlayGate(old(lastPlay), kind, initialClick, now).Pass? ==>
                events == old(events) + [Event(kind, CurrentDetail(), now)]
                && lastPlay == PlayGate(old(lastPlay), kind, initialClick, now).lastPlay
      ensures EmitLeavesAlone()
    {
      match PlayGate(lastPlay, kind, initialClick, now)
      case Drop =>
      case Pass(mark) =>
        lastPlay := mark;
        events := events + [Event(kind, CurrentDetail(), now)];
    }

    /** `onReady` of the YouTube player: the player is ready and bound, and
        a play asked for before now happens once. Only a live player gets
        ready. */
    method OnYouTubeReady()
      requires Valid()
      modifies this`ytReady, this`playOnReady, this`yt
      ensures Valid()
      ensures !old(YouTubeLive()) ==> unchanged(this)
      ensures old(YouTubeLive()) ==>
                ytReady && !playOnReady && YouTubeLive()
                && yt == Some(old(yt).value.(apiBound := true,
                                             playCalls := old(yt).value.playCalls + (if old(playOnReady) then 1 else 0)))
    {
      if YouTubeLive() {
        ytReady := true;
        yt := Some(yt.value.(apiBound := true));
        if playOnReady {
          yt := Some(yt.value.(playCalls := yt.value.playCalls + 1));
          playOnReady := false;
        }
      }
    }

    /** `onStateChange` of the YouTube player; only a live player reports. */
    method OnYouTubeStateChange(state: YouTubeState, now: int)
      requires Valid()
      modifies this`lastPlay, this`events
      ensures Valid()
      ensures !old(YouTubeLive()) || StateEvent(state).None? ==> unchanged(this)
      ensures YouTubeLive() && StateEvent(state).Some? ==>
                var gate := PlayGate(old(lastPlay), StateEvent(state).value, false, now);
                (gate.Drop? ==> events == old(events))
                && (gate.Pass? ==> events == old(events) + [Event(StateEvent(state).value, CurrentDetail(), now)])
                && lastPlay == (if gate.Pass? then gate.lastPlay else old(lastPlay))
    {
      if YouTubeLive() {
        match StateEvent(state)
        case Some(k) => EmitEvent(k, false, now);
        case None =>
      }
    }

    /** A `play`, `pause` or `ended` notification from the Vimeo player;
        only a live player with a listener for it reports. */
    method OnVimeoEvent(e: NativeEvent, now: int)
      requires Valid()
      modifies this`lastPlay, this`events
      ensures Valid()
      ensures !old(VimeoLive()) || e !in old(vimeo).value.listeners ==> unchanged(this)
      ensures VimeoLive() && e in vimeo.value.listeners ==>
                var gate := PlayGate(old(lastPlay), ForwardedKind(e), false, now);
                (gate.Drop? ==> events == old(events))
                && (gate.Pass? ==> events == old(events) + [Event(ForwardedKind(e), CurrentDetail(), now)])
                && lastPlay == (if gate.Pass? then gate.lastPlay else old(lastPlay))
    {
      if VimeoLive() && e in vimeo.value.listeners {
        EmitEvent(ForwardedKind(e), false, now);
      }
    }

    /** A `play`, `pause` or `ended` event of the `<video>` element. */
    method OnMediaEvent(e: NativeEvent, now: int)
      requires Valid()
      modifies this`lastPlay, this`events
      ensures Valid()
      ensures old(shadow).video.None? || e !in old(shadow).video.value.listeners ==> unchanged(this)
      ensures shadow.video.Some? && e in shadow.video.value.listeners ==>
                var gate := PlayGate(old(lastPlay), ForwardedKind(e), false, now);
                (gate.Drop? ==> events == old(events))
                && (gate.Pass? ==> events == old(events) + [Event(ForwardedKind(e), CurrentDetail(), now)])
                && lastPlay == (if gate.Pass? then gate.lastPlay else old(lastPlay))
    {
      if shadow.video.Some? && e in shadow.video.value.listeners {
        EmitEvent(ForwardedKind(e), false, now);
      }
    }

    /** The oldest setup timer fires. */
    method RunNextSetup()
      requires Valid()
      modifies this`pending, this`yt, this`nextSerial, this`ytAwaiting, this`vimeo, this`retiredVimeo, this`shadow
      ensures Valid()
      ensures old(pending) == [] ==> unchanged(this)
      ensures old(pending) != [] ==> pending == old(pending)[1..]
      ensures old(pending) != [] && old(pending)[0] == YouTube ==> YouTubeSetUp()
      ensures old(pending) != [] && old(pending)[0] == Vimeo ==> VimeoSetUp()
      ensures old(pending) != [] && old(pending)[0] == SelfHosted ==> SelfHostedSetUp()
    {
      if pending != [] {
        var t := pending[0];
        pending := pending[1..];
        match t
        case YouTube => SetupYouTube();
        case Vimeo => SetupVimeo();
        case SelfHosted => SetupSelfHosted();
      }
    }

    /** `_setupYouTubePlayer`: binds a player to the current `#ytPlayer` now
        if `window.YT.Player` is there, or, with the iframe found now, once
        the API announces itself. */
    method SetupYouTube()
      requires Valid()
      modifies this`yt, this`nextSerial, this`ytAwaiting
      ensures Valid()
      ensures !(shadow.embed.Frame? && shadow.embed.backend == YouTube) ==> unchanged(this)
      ensures YouTubeSetUp()
    {
      if shadow.embed.Frame? && shadow.embed.backend == YouTube {
        if doc.YouTubeConstructible() {
          InitializeYouTubePlayer(content);
        } else {
          ytAwaiting := ytAwaiting + [content];
        }
      }
    }

    /** `_initializeYouTubePlayer`: `new YT.Player(iframe, …)` on the iframe
        of container content `frame`. */
    method InitializeYouTubePlayer(frame: nat)
      modifies this`yt, this`nextSerial
      ensures yt == Some(YouTubePlayer(old(nextSerial), frame, false, 0)) && nextSerial == old(nextSerial) + 1
    {
      yt := Some(YouTubePlayer(nextSerial, frame, false, 0));
      nextSerial := nextSerial + 1;
    }

    /** `onYouTubeIframeAPIReady`: every initialisation chained onto it runs, in
        order, each on the iframe it found, so the last one's player is the
        element's player. */
    method OnYouTubeIframeApiReady()
      requires Valid()
      modifies this`yt, this`nextSerial, this`ytAwaiting
      ensures Valid()
      ensures ytAwaiting == [] && nextSerial == old(nextSerial) + |old(ytAwaiting)|
      ensures old(ytAwaiting) == [] ==> yt == old(yt)
      ensures old(ytAwaiting) != [] ==>
                yt == Some(YouTubePlayer(nextSerial - 1, old(ytAwaiting)[|old(ytAwaiting)| - 1], false, 0))
    {
      var w := ytAwaiting;
      var i := 0;
      while i < |w|
        invariant 0 <= i <= |w| && nextSerial == old(nextSerial) + i && ytAwaiting == w
        invariant i == 0 ==> yt == old(yt)
        invariant i > 0 ==> yt == Some(YouTubePlayer(nextSerial - 1, w[i - 1], false, 0))
        invariant Valid()
      {
        InitializeYouTubePlayer(w[i]);
        i := i + 1;
      }
      ytAwaiting := [];
    }

    /** `_setupVimeoPlayer`: detaches the old player's listeners, binds a new
        player to the current iframe with one listener per notification, and
        plays it when the embed was built with autoplay. Without
        `window.Vimeo` the construction throws after the old player was
        detached. */
    method SetupVimeo()
      requires Valid()
      modifies this`vimeo, this`retiredVimeo, this`nextSerial
      ensures Valid()
      ensures !(shadow.embed.Frame? && shadow.embed.backend == Vimeo) ==> unchanged(this)
      ensures VimeoSetUp()
    {
      if shadow.embed.Frame? && shadow.embed.backend == Vimeo {
        if vimeo.Some? {
          vimeo := Some(Unbind(vimeo.value));
        }
        if doc.vimeoApi {
          if vimeo.Some? {
            retiredVimeo := retiredVimeo + [vimeo.value];
          }
          vimeo := Some(BindVimeo(nextSerial, content, Contains(shadow.embed.url, "autoplay=1")));
          nextSerial := nextSerial + 1;
        }
      }
    }

    /** `_setupSelfHostedPlayer`: marks `#selfHostedPlayer` and adds its
        listeners, once per element. */
    method SetupSelfHosted()
      requires Valid()
      modifies this`shadow
      ensures Valid()
      ensures old(shadow).video.None? ==> unchanged(this)
      ensures SelfHostedSetUp()
    {
      if shadow.video.Some? {
        shadow := shadow.(video := Some(AttachMedia(shadow.video.value)));
      }
    }
  }

  /** A poster click on a YouTube element whose `video-play` goes through
      holds off the player's own PLAYING for the next 5500 ms: the mark is
      five seconds ahead of the click. */
  method YouTubeActivationHoldsOff(p: VideoPlayer, now: int, later: int)
    requires p.Valid() && p.playerType == YouTube && now - p.lastPlay >= DebounceInterval
    requires later < now + PosterClickBias + DebounceInterval
    modifies p
    ensures p.Valid() && p.lastPlay == now + PosterClickBias
    ensures p.events == old(p.events) + [Event(VideoPlay, p.CurrentDetail(), now)]
  {
    p.Activate(now);
    p.OnYouTubeStateChange(Playing, later);
  }

  /** On a listened `<video>`, a play, a pause 100 ms later and a play
      600 ms after the first are all dispatched: the pause leaves the mark,
      and the second play is a full interval after the first. */
  method MediaPlayPausePlay(p: VideoPlayer, now: int)
    requires p.Valid() && p.shadow.video.Some? && now - p.lastPlay >= DebounceInterval
    requires NativePlay in p.shadow.video.value.listeners && NativePause in p.shadow.video.value.listeners
    modifies p
    ensures p.Valid() && p.lastPlay == now + 600
    ensures p.events == old(p.events) + [Event(VideoPlay, p.CurrentDetail(), now),
                                         Event(VideoPause, p.CurrentDetail(), now + 100),
                                         Event(VideoPlay, p.CurrentDetail(), now + 600)]
  {
    p.OnMediaEvent(NativePlay, now);
    p.OnMediaEvent(NativePause, now + 100);
    p.OnMediaEvent(NativePlay, now + 600);
  }

  /** Switching `src` from a YouTube URL to a self-hosted one re-renders
      with a `<video>` (or, for an empty `src`, the error embed), after which
      the old YouTube player reports nothing, whatever state it signals.
      The player handle and its ready flags stay on the element, as the
      element never clears them. */
  method SwitchFromYouTubeToSelfHosted(p: VideoPlayer, src: string, state: YouTubeState, now: int)
    requires p.Valid() && p.Rendered()
    requires DetectPlayerType(p.shadow.config.src) == YouTube && DetectPlayerType(src) == SelfHosted
    modifies p, p.doc
    ensures p.Valid() && p.Rendered() && p.playerType == SelfHosted
    ensures p.shadow.embed.VideoTag? || p.shadow.embed == InvalidUrl(SelfHosted)
    ensures !p.YouTubeLive() && !p.VimeoLive()
    ensures p.events == old(p.events)
    ensures p.yt == old(p.yt) && p.ytReady == old(p.ytReady) && p.playOnReady == old(p.playOnReady)
  {
    SetSrcConfigures(p.attrs, src);
    p.SetAttribute("src", Some(src));
    p.OnYouTubeStateChange(state, now);
    p.OnYouTubeReady();
  }
}
