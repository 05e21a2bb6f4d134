/** The `VideoPlayer` custom element of lib/jfm-video-player.ts, the earlier
    revision: every emission is dispatched (no debounce, no timing data), a
    render without a poster emits `video-load` and loads at once, the
    activation handler emits `video-play` itself, and every load reveals the
    container. There is no script injection and no readiness handshake. */
module JfmVideoPlayerElement {
  import opened Wrappers
  import opened Text
  import opened Resolver
  import opened Markup
  import opened Events
  import opened Backends
  import opened Shadow
  import Page

  /** No event of this revision carries timing data. */
  ghost predicate LogUntimed(events: seq<Event>) {
    forall k :: 0 <= k < |events| ==> !events[k].detail.timed
  }

  /** A Vimeo embed of this revision asks for autoplay in its `src` exactly
      when it was built with autoplay, even with an empty ID. */
  lemma JfmLoadedVimeoFrameAutoplays(c: Config, autoplay: bool, decode: Decoders)
    ensures VimeoFrameAutoplays(JfmLoadEmbed(c, autoplay, decode))
  {
    if DetectPlayerType(c.src) == Vimeo {
      ExtractVimeoIDShape(c.src);
      VimeoEmbedUrlAutoplay(ExtractVimeoID(c.src), autoplay);
    }
  }

  /** The events one activation dispatches before its load: a `video-play`
      when the tree has a poster element and the source is not Vimeo. */
  function JfmActivationEvents(s: Shell, t: PlayerType, detail: Detail, now: int): (r: seq<Event>)
    ensures |r| <= 1
    ensures |r| == 1 <==> !s.poster.NoPoster? && t != Vimeo
    ensures |r| == 1 ==> r[0].kind == VideoPlay && r[0].detail == detail
  {
    if !s.poster.NoPoster? && t != Vimeo then [Event(VideoPlay, detail, now)] else []
  }

  class JfmVideoPlayer {
    /** The page the element lives on; this revision only reads whether the
        player APIs are loaded. */
    const doc: Page.Document
    /** `JSON.parse` as the element uses it. */
    const decode: Decoders

    var attrs: Attributes
    var shadow: ShadowTree

    // Private fields of the element.
    var playerType: PlayerType
    var yt: Option<YouTubePlayer>
    var vimeo: Option<VimeoPlayer>

    /** Players that a later Vimeo setup replaced. */
    var retiredVimeo: seq<VimeoPlayer>
    /** Identity for the next backend player created. */
    var nextSerial: nat
    /** Identity of the container's current content: a render, which
        rewrites the container, and every load make a new one. */
    var content: nat
    /** The 500 ms setup timers, in the order they fire. */
    var pending: seq<PlayerType>
    /** Every event dispatched on the element, in order. */
    var events: seq<Event>

    /** The shadow tree is the one the attributes call for: without a poster
        the eager load is in place, with one the container stays empty until
        an activation loads with autoplay. Only the poster is a target. */
    ghost predicate Rendered()
      reads this`attrs, this`shadow
    {
      var t := shadow;
      t.config == ReadConfig(attrs)
      && t.shell == BuildShell(t.config, decode)
      && t.targets == RoleButtonTargets(t.shell)
      && t.listeners == ListenersFor(t.targets)
      && if t.shell.poster.NoPoster? then t.embed == JfmLoadEmbed(t.config, false, decode)
         else t.embed == NoEmbed || t.embed == JfmLoadEmbed(t.config, true, decode)
    }

    /** Until a load the classes are those the render wrote; once the
        container holds an embed it is shown, the overlay is hidden and the
        player type is that of the rendered source. */
    ghost predicate Consistent()
      reads this`shadow, this`playerType
    {
      Coherent(shadow)
      && VimeoFrameAutoplays(shadow.embed)
      && (shadow.embed == NoEmbed ==>
            shadow.containerHidden == ContainerStartsHidden(shadow.shell)
            && !shadow.posterHidden && !shadow.playButtonHidden)
      && (shadow.embed != NoEmbed ==>
            shadow == Revealed(shadow) && playerType == DetectPlayerType(shadow.config.src))
    }

    /** The listeners the element holds on its players are as setups leave
        them, and every player was built on container content written by
        now. */
    ghost predicate HandlesBound()
      reads this`vimeo, this`retiredVimeo, this`shadow, this`yt, this`content
    {
      PlayersBound(vimeo, retiredVimeo, shadow.video)
      && (yt.Some? ==> yt.value.frame <= content)
      && (vimeo.Some? ==> vimeo.value.frame <= content)
    }

    ghost predicate Valid()
      reads this`shadow, this`playerType, this`vimeo, this`retiredVimeo, this`events, this`yt, this`content
    {
      Consistent() && HandlesBound() && LogUntimed(events)
    }

    /** The container still holds the iframe the YouTube player was built
        on; once the iframe is replaced none of its callbacks can arrive. */
    predicate YouTubeLive()
      reads this`yt, this`shadow, this`content
    {
      yt.Some? && yt.value.frame == content && shadow.embed.Frame? && shadow.embed.backend == YouTube
    }

    /** The container still holds the iframe the Vimeo player was built on. */
    predicate VimeoLive()
      reads this`vimeo, this`shadow, this`content
    {
      vimeo.Some? && vimeo.value.frame == content && shadow.embed.Frame? && shadow.embed.backend == Vimeo
    }

    /** The state a render leaves alone: the attributes and everything the
        backend setups own. */
    twostate predicate RenderLeavesAlone()
      reads this
    {
      attrs == old(attrs) && yt == old(yt) && vimeo == old(vimeo)
      && retiredVimeo == old(retiredVimeo) && nextSerial == old(nextSerial)
    }

    /** What `_render` leaves for the attributes the element now holds: the
        tree of `Listened`, and without a poster the player type, the
        `video-load` and the eager load with its setup queued. The container
        content is new, so no earlier player is live, and the player handles
        are kept. */
    twostate predicate Rerendered(now: int)
      reads this
    {
      var written := Listened(attrs);
      (if written.shell.poster.NoPoster?
       then shadow == Revealed(WithEmbed(written, JfmLoadEmbed(written.config, false, decode)))
            && playerType == DetectPlayerType(written.config.src)
            && events == old(events) + [Event(VideoLoad, CurrentDetail(), now)]
            && pending == old(pending) + SetupList(shadow.embed)
       else shadow == written
            && playerType == old(playerType) && events == old(events) && pending == old(pending))
      && content > old(content) && !YouTubeLive() && !VimeoLive()
      && yt == old(yt) && vimeo == old(vimeo) && retiredVimeo == old(retiredVimeo) && nextSerial == old(nextSerial)
    }

    /** What the activation handler does: the player type of the rendered
        source, a `video-play` when a poster exists and the source is not
        Vimeo, then a load with autoplay into new container content that
        shows the container and hides the overlay. */
    twostate predicate Activated(now: int)
      reads this
    {
      playerType == DetectPlayerType(old(shadow).config.src)
      && events == old(events) + JfmActivationEvents(old(shadow).shell, playerType, CurrentDetail(), now)
      && shadow == Revealed(WithEmbed(old(shadow), JfmLoadEmbed(old(shadow).config, true, decode)))
      && pending == old(pending) + SetupList(shadow.embed)
      && content == old(content) + 1
      && attrs == old(attrs) && yt == old(yt) && vimeo == old(vimeo)
      && retiredVimeo == old(retiredVimeo) && nextSerial == old(nextSerial)
    }

    /** The tree a render writes for `attrs`, with the listeners of its
        `forEach` attached: nothing hidden but the container when a poster
        covers it, and an empty container. */
    function Listened(attrs: Attributes): (t: ShadowTree)
      ensures t.config == ReadConfig(attrs) && t.shell == BuildShell(t.config, decode)
      ensures t.targets == RoleButtonTargets(t.shell) && t.listeners == ListenersFor(t.targets)
      ensures t.embed == NoEmbed && t.video.None?
      ensures t.containerHidden == !t.shell.poster.NoPoster? && !t.posterHidden && !t.playButtonHidden
    {
      var c := ReadConfig(attrs);
      var s := BuildShell(c, decode);
      Written(c, s, RoleButtonTargets(s)).(listeners := ListenersFor(RoleButtonTargets(s)))
    }

    /** What `_setupYouTubePlayer` leaves when its timer fires: with
        `#ytPlayer` embedded and `YT.Player` defined, a new live player on
        it; otherwise the construction throws or the setup returns, and
        nothing changes. The tree and the Vimeo players are kept. */
    twostate predicate YouTubeSetUp()
      reads this, doc
    {
      var built := shadow.embed.Frame? && shadow.embed.backend == YouTube && doc.YouTubeConstructible();
      shadow == old(shadow) && vimeo == old(vimeo) && retiredVimeo == old(retiredVimeo)
      && (!built ==> yt == old(yt) && nextSerial == old(nextSerial))
      && (built ==>
            yt == Some(YouTubePlayer(old(nextSerial), content, false, 0)) && nextSerial == old(nextSerial) + 1
            && YouTubeLive())
    }

    /** What `_setupVimeoPlayer` leaves when its timer fires: with a Vimeo
        iframe embedded, the old player detached and, when `window.Vimeo`
        exists, a new live player with one listener per notification that
        plays when the iframe asks for autoplay. The tree and the YouTube
        player are kept. */
    twostate predicate VimeoSetUp()
      reads this, doc
    {
      var frame := shadow.embed.Frame? && shadow.embed.backend == Vimeo;
      shadow == old(shadow) && yt == old(yt)
      && (!frame ==> vimeo == old(vimeo) && retiredVimeo == old(retiredVimeo) && nextSerial == old(nextSerial))
      && (frame && !doc.vimeoApi ==>
            vimeo == (if old(vimeo).Some? then Some(Unbind(old(vimeo).value)) else None)
            && retiredVimeo == old(retiredVimeo) && nextSerial == old(nextSerial))
      && (frame && doc.vimeoApi ==>
            vimeo == Some(BindVimeo(old(nextSerial), content, shadow.embed.allowAutoplay)) && VimeoLive()
            && retiredVimeo == old(retiredVimeo) + (if old(vimeo).Some? then [Unbind(old(vimeo).value)] else [])
            && nextSerial == old(nextSerial) + 1)
    }

    /** What `_setupSelfHostedPlayer` leaves when its timer fires: the
        `<video>`, if there is one, with its listeners attached, and the
        player handles kept. */
    twostate predicate SelfHostedSetUp()
      reads this
    {
      yt == old(yt) && vimeo == old(vimeo) && retiredVimeo == old(retiredVimeo) && nextSerial == old(nextSerial)
      && shadow == (if old(shadow).video.Some?
                    then old(shadow).(video := Some(AttachMedia(old(shadow).video.value)))
                    else old(shadow))
    }

    /** The detail `_emitEvent` builds now: the player type and the `src`
        attribute. */
    function CurrentDetail(): (d: Detail)
      reads this`playerType, this`attrs
      ensures d.playerType == playerType && d.src == GetAttribute(attrs, "src") && !d.timed
    {
      Detail(playerType, GetAttribute(attrs, "src"), false)
    }

    /** `new VideoPlayer()` on an element holding `attrs`: the player type
        starts as self-hosted, and the element renders at once. */
    constructor(doc: Page.Document, decode: Decoders, attrs: Attributes, now: int)
      ensures Valid() && Rendered() && this.doc == doc && this.decode == decode && this.attrs == attrs
      ensures var s := BuildShell(ReadConfig(attrs), decode);
              if s.poster.NoPoster?
              then playerType == DetectPlayerType(ReadConfig(attrs).src)
                   && events == [Event(VideoLoad, CurrentDetail(), now)]
                   && pending == SetupList(shadow.embed)
              else playerType == SelfHosted && events == [] && pending == [] && shadow.embed == NoEmbed
      ensures yt.None? && vimeo.None? && retiredVimeo == [] && nextSerial == 0
    {
      content := 0;
      this.doc := doc;
      this.decode := decode;
      this.attrs := attrs;
      shadow := Written(ReadConfig(attrs), BuildShell(ReadConfig(attrs), decode), []);
      playerType := SelfHosted;
      yt, vimeo, retiredVimeo := None, None, [];
      nextSerial := 0;
      pending, events := [], [];
      new;
      Render(now);
    }

    /** The browser's `setAttribute(name, v)` (or `removeAttribute(name)` for
        `None`), then `attributeChangedCallback` for an observed name. */
    method SetAttribute(name: string, value: Option<string>, now: int)
      requires Valid() && Rendered()
      modifies this
      ensures Valid() && Rendered()
      ensures attrs == SetAttr(old(attrs), name, value)
      ensures GetAttribute(old(attrs), name) == value || name !in ObservedAttributes ==>
                shadow == old(shadow) && pending == old(pending) && events == old(events)
                && content == old(content) && playerType == old(playerType)
      ensures GetAttribute(old(attrs), name) != value && name in ObservedAttributes ==> Rerendered(now)
    {
      var previous := GetAttribute(attrs, name);
      var before := attrs;
      attrs := SetAttr(attrs, name, value);
      if name in ObservedAttributes {
        if previous == value {
          SetAttrSame(before, name, value);
        }
        AttributeChangedCallback(name, previous, value, now);
      } else {
        SetAttrUnobserved(before, name, value);
      }
    }

    /** `attributeChangedCallback`: the attribute map already holds the new
        value; a change re-renders. */
    method AttributeChangedCallback(name: string, oldValue: Option<string>, newValue: Option<string>, now: int)
      requires HandlesBound() && LogUntimed(events)
      requires oldValue == newValue ==> Valid() && Rendered()
      modifies this`shadow, this`playerType, this`pending, this`events, this`content
      ensures Valid() && Rendered()
      ensures oldValue == newValue ==> unchanged(this)
      ensures oldValue != newValue ==> Rerendered(now)
      ensures attrs == old(attrs)
    {
      if oldValue != newValue {
        Render(now);
      }
    }

    /** `_render`: rewrites the shadow tree from the attributes and attaches
        the listeners of the poster. Without a poster it sets the player
        type, emits `video-load` and loads without autoplay; with one the
        container stays empty and hidden. */
    method Render(now: int)
      requires HandlesBound() && LogUntimed(events)
      modifies this`shadow, this`playerType, this`pending, this`events, this`content
      ensures Valid() && Rendered() && Rerendered(now)
      ensures RenderLeavesAlone()
    {
      WriteTree();
      if shadow.shell.poster.NoPoster? {
        LoadEagerly(now);
      }
    }

    /** The `innerHTML` write of `_render` and the `forEach` over its
        targets: the tree of `Listened`, with new, empty container content. */
    method WriteTree()
      requires HandlesBound() && LogUntimed(events)
      modifies this`shadow, this`content
      ensures Valid() && shadow == Listened(attrs) && content == old(content) + 1
      ensures !YouTubeLive() && !VimeoLive()
    {
      var c := ReadConfig(attrs);
      var s := BuildShell(c, decode);
      shadow, content := Written(c, s, RoleButtonTargets(s)), content + 1;
      AttachActivationListeners();
    }

    /** The tail of a render without a poster: the player type of the
        source, `video-load`, and a load without autoplay. */
    method LoadEagerly(now: int)
      requires Valid()
      modifies this`shadow, this`playerType, this`pending, this`events, this`content
      ensures Valid() && content == old(content) + 1 && !YouTubeLive() && !VimeoLive()
      ensures playerType == DetectPlayerType(old(shadow).config.src)
      ensures events == old(events) + [Event(VideoLoad, CurrentDetail(), now)]
      ensures shadow == Revealed(WithEmbed(old(shadow), JfmLoadEmbed(old(shadow).config, false, decode)))
      ensures pending == old(pending) + SetupList(shadow.embed)
    {
      playerType := DetectPlayerType(shadow.config.src);
      EmitEvent(VideoLoad, now);
      LoadVideo(false);
    }

    /** The `forEach` over the `[role="button"]` elements: a click and a
        keydown listener on each. */
    method AttachActivationListeners()
      modifies this`shadow
      ensures shadow == old(shadow).(listeners := ListenersFor(old(shadow).targets))
    {
      var ts := shadow.targets;
      var ls := [];
      var i := 0;
      while i < |ts|
        invariant 0 <= i <= |ts|
        invariant ls == ListenersFor(ts[..i]) && shadow == old(shadow)
      {
        ListenersForAppend(ts[..i], ts[i]);
        assert ts[..i + 1] == ts[..i] + [ts[i]];
        ls := ls + [Listener(ts[i], Click), Listener(ts[i], KeyDown)];
        i := i + 1;
      }
      assert ts[..i] == ts;
      shadow := shadow.(listeners := ls);
    }

    /** `_loadVideo`, with the `src`, `sources` and `allowfullscreen` the
        render read: the player type, the embed and its setup timer, and,
        whatever the source type, the container shown and the overlay
        hidden. */
    method LoadVideo(autoplay: bool)
      requires Valid()
      modifies this`playerType, this`shadow, this`pending, this`content
      ensures Valid() && content == old(content) + 1 && !YouTubeLive() && !VimeoLive()
      ensures playerType == DetectPlayerType(shadow.config.src)
      ensures shadow == Revealed(WithEmbed(old(shadow), JfmLoadEmbed(old(shadow).config, autoplay, decode)))
      ensures !shadow.containerHidden && shadow.posterHidden == !shadow.shell.poster.NoPoster?
              && shadow.playButtonHidden == shadow.shell.playButton
      ensures pending == old(pending) + SetupList(shadow.embed)
    {
      var e := JfmLoadEmbed(shadow.config, autoplay, decode);
      var t := Revealed(WithEmbed(shadow, e));
      LoadKeepsBound(shadow, e, vimeo, retiredVimeo);
      JfmLoadedVimeoFrameAutoplays(shadow.config, autoplay, decode);
      playerType, shadow, pending, content := DetectPlayerType(shadow.config.src), t, pending + SetupList(e), content + 1;
    }

    /** A click on `t`: runs the activation handler if `t` has one. */
    method OnClick(t: Target, now: int)
      requires Valid() && Rendered()
      modifies this`shadow, this`playerType, this`pending, this`events, this`content
      ensures Valid() && Rendered()
      ensures Listener(t, Click) !in old(shadow).listeners ==> unchanged(this)
      ensures Listener(t, Click) in old(shadow).listeners ==> t == PosterTarget && Activated(now)
    {
      if Listener(t, Click) in shadow.listeners {
        Activate(now);
      }
    }

    /** A keydown on `t`: Enter and Space run the activation handler. */
    method OnKeyDown(t: Target, key: string, now: int)
      requires Valid() && Rendered()
      modifies this`shadow, this`playerType, this`pending, this`events, this`content
      ensures Valid() && Rendered()
      ensures Listener(t, KeyDown) !in old(shadow).listeners || (key != "Enter" && key != " ") ==> unchanged(this)
      ensures Listener(t, KeyDown) in old(shadow).listeners && (key == "Enter" || key == " ") ==>
                t == PosterTarget && Activated(now)
    {
      if Listener(t, KeyDown) in shadow.listeners && (key == "Enter" || key == " ") {
        Activate(now);
      }
    }

    /** The activation handler: the player type of the rendered source, a
        `video-play` when a poster exists and the source is not Vimeo, then
        a load with autoplay. */
    method Activate(now: int)
      requires Valid()
      modifies this`shadow, this`playerType, this`pending, this`events, this`content
      ensures Valid() && Activated(now)
    {
      AnnounceActivation(now);
      LoadVideo(true);
    }

    /** The start of the activation handler: the player type of the
        rendered source, and a `video-play` when a poster exists and the
        source is not Vimeo. */
    method AnnounceActivation(now: int)
      requires Valid()
      modifies this`playerType, this`events
      ensures Valid() && playerType == DetectPlayerType(shadow.config.src)
      ensures events == old(events) + JfmActivationEvents(shadow.shell, playerType, CurrentDetail(), now)
    {
      playerType := DetectPlayerType(shadow.config.src);
      if !shadow.shell.poster.NoPoster? && playerType != Vimeo {
        EmitEvent(VideoPlay, now);
      }
    }

    /** `_emitEvent`: one event with the current detail, every time. */
    method EmitEvent(kind: EventKind, now: int)
      requires Valid()
      modifies this`events
      ensures Valid()
      ensures events == old(events) + [Event(kind, CurrentDetail(), now)]
    {
      events := events + [Event(kind, CurrentDetail(), now)];
    }

    /** `onReady` of the YouTube player: it plays at once. Only a live
        player gets ready. */
    method OnYouTubeReady()
      requires Valid()
      modifies this`yt
      ensures Valid()
      ensures !old(YouTubeLive()) ==> unchanged(this)
      ensures old(YouTubeLive()) ==>
                YouTubeLive() && yt == Some(old(yt).value.(apiBound := true, playCalls := old(yt).value.playCalls + 1))
    {
      if YouTubeLive() {
        yt := Some(yt.value.(apiBound := true, playCalls := yt.value.playCalls + 1));
      }
    }

    /** `onStateChange` of the YouTube player; only a live player reports. */
    method OnYouTubeStateChange(state: YouTubeState, now: int)
      requires Valid()
      modifies this`events
      ensures Valid()
      ensures !old(YouTubeLive()) || StateEvent(state).None? ==> unchanged(this)
      ensures YouTubeLive() && StateEvent(state).Some? ==>
                events == old(events) + [Event(StateEvent(state).value, CurrentDetail(), now)]
    {
      if YouTubeLive() {
        match StateEvent(state)
        case Some(k) => EmitEvent(k, now);
        case None =>
      }
    }

    /** A `play`, `pause` or `ended` notification from the Vimeo player;
        only a live player with a listener for it reports. */
    method OnVimeoEvent(e: NativeEvent, now: int)
      requires Valid()
      modifies this`events
      ensures Valid()
      ensures !old(VimeoLive()) || e !in old(vimeo).value.listeners ==> unchanged(this)
      ensures VimeoLive() && e in vimeo.value.listeners ==>
                events == old(events) + [Event(ForwardedKind(e), CurrentDetail(), now)]
    {
      if VimeoLive() && e in vimeo.value.listeners {
        EmitEvent(ForwardedKind(e), now);
      }
    }

    /** A `play`, `pause` or `ended` event of the `<video>` element. */
    method OnMediaEvent(e: NativeEvent, now: int)
      requires Valid()
      modifies this`events
      ensures Valid()
      ensures old(shadow).video.None? || e !in old(shadow).video.value.listeners ==> unchanged(this)
      ensures shadow.video.Some? && e in shadow.video.value.listeners ==>
                events == old(events) + [Event(ForwardedKind(e), CurrentDetail(), now)]
    {
      if shadow.video.Some? && e in shadow.video.value.listeners {
        EmitEvent(ForwardedKind(e), now);
      }
    }

    /** The oldest setup timer fires. */
    method RunNextSetup()
      requires Valid()
      modifies this`pending, this`yt, this`nextSerial, this`vimeo, this`retiredVimeo, this`shadow
      ensures Valid()
      ensures old(pending) == [] ==> unchanged(this)
      ensures old(pending) != [] ==> pending == old(pending)[1..]
      ensures old(pending) != [] && old(pending)[0] == YouTube ==> YouTubeSetUp()
      ensures old(pending) != [] && old(pending)[0] == Vimeo ==> VimeoSetUp()
      ensures old(pending) != [] && old(pending)[0] == SelfHosted ==> SelfHostedSetUp()
    {
      if pending != [] {
        var t := pending[0];
        pending := pending[1..];
        match t
        case YouTube => SetupYouTube();
        case Vimeo => SetupVimeo();
        case SelfHosted => SetupSelfHosted();
      }
    }

    /** `_setupYouTubePlayer`: `new YT.Player` on the current `#ytPlayer`.
        Without `window.YT` or its `Player` the construction throws and
        nothing changes. */
    method SetupYouTube()
      requires Valid()
      modifies this`yt, this`nextSerial
      ensures Valid()
      ensures !(shadow.embed.Frame? && shadow.embed.backend == YouTube && doc.YouTubeConstructible()) ==> unchanged(this)
      ensures YouTubeSetUp()
    {
      if shadow.embed.Frame? && shadow.embed.backend == YouTube && doc.YouTubeConstructible() {
        yt := Some(YouTubePlayer(nextSerial, content, false, 0));
        nextSerial := nextSerial + 1;
      }
    }

    /** `_setupVimeoPlayer`: detaches the old player's listeners, binds a new
        player with one listener per notification, and plays it when the
        iframe's `src` asks for autoplay. Without `window.Vimeo` the
        construction throws after the old player was detached. */
    method SetupVimeo()
      requires Valid()
      modifies this`vimeo, this`retiredVimeo, this`nextSerial
      ensures Valid()
      ensures !(shadow.embed.Frame? && shadow.embed.backend == Vimeo) ==> unchanged(this)
      ensures VimeoSetUp()
    {
      if shadow.embed.Frame? && shadow.embed.backend == Vimeo {
        if vimeo.Some? {
          vimeo := Some(Unbind(vimeo.value));
        }
        if doc.vimeoApi {
          if vimeo.Some? {
            retiredVimeo := retiredVimeo + [vimeo.value];
          }
          vimeo := Some(BindVimeo(nextSerial, content, Contains(shadow.embed.url, "autoplay=1")));
          nextSerial := nextSerial + 1;
        }
      }
    }

    /** `_setupSelfHostedPlayer`: marks `#selfHostedPlayer` and adds its
        listeners, once per element. */
    method SetupSelfHosted()
      requires Valid()
      modifies this`shadow
      ensures Valid()
      ensures old(shadow).video.None? ==> unchanged(this)
      ensures SelfHostedSetUp()
    {
      if shadow.video.Some? {
        shadow := shadow.(video := Some(AttachMedia(shadow.video.value)));
      }
    }
  }

  /** Switching `src` from a YouTube URL to a self-hosted one re-renders;
      if no poster covers the container the new embed is a `<video>` at
      once. Either way the old YouTube player reports nothing afterwards,
      whatever state it signals, though its handle stays on the element. */
  method JfmSwitchFromYouTubeToSelfHosted(p: JfmVideoPlayer, src: string, state: YouTubeState, now: int)
    requires p.Valid() && p.Rendered()
    requires DetectPlayerType(p.shadow.config.src) == YouTube && DetectPlayerType(src) == SelfHosted
    modifies p
    ensures p.Valid() && p.Rendered()
    ensures p.shadow.embed.VideoTag? || p.shadow.embed == NoEmbed
    ensures p.shadow.shell.poster.NoPoster? ==> p.shadow.embed.VideoTag? && p.playerType == SelfHosted
    ensures !p.YouTubeLive() && !p.VimeoLive()
    ensures p.events == old(p.events) + (if p.shadow.shell.poster.NoPoster? then [Event(VideoLoad, p.CurrentDetail(), now)] else [])
    ensures p.yt == old(p.yt)
  {
    SetSrcConfigures(p.attrs, src);
    p.SetAttribute("src", Some(src), now);
    p.OnYouTubeStateChange(state, now);
    p.OnYouTubeReady();
  }
}
