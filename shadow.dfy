/** The element's shadow tree as a value: what a render writes into
    `shadowRoot.innerHTML`, what `_loadVideo` writes into the video container,
    the `hidden` classes the handlers toggle and the listeners on the
    activation targets. Both revisions of the element keep one. */
module Shadow {
  import opened Wrappers
  import opened Text
  import opened Resolver
  import opened Markup
  import opened Backends

  datatype ShadowTree = ShadowTree(
    /** The attribute values the render read; its handlers close over them. */
    config: Config,
    shell: Shell,
    posterHidden: bool,
    playButtonHidden: bool,
    containerHidden: bool,
    /** `container.innerHTML` */
    embed: Embed,
    /** `#selfHostedPlayer`, when the container holds a `<video>`. */
    video: Option<MediaElement>,
    targets: seq<Target>,
    listeners: seq<Listener>)

  /** A `<video>` element as `_loadVideo` creates it: unmarked, without
      listeners, never played. */
  const FreshVideo := MediaElement(false, multiset{}, 0)

  /** The tree right after the `innerHTML` write of a render: no class
      toggled yet but the container's initial `hidden`, an empty container,
      no listeners. */
  function Written(c: Config, s: Shell, targets: seq<Target>): (t: ShadowTree)
    ensures t.config == c && t.shell == s && t.targets == targets
    ensures Coherent(t) && t.embed == NoEmbed && t.listeners == []
  {
    ShadowTree(c, s, false, false, ContainerStartsHidden(s), NoEmbed, None, targets, [])
  }

  /** `container.innerHTML = embedHTML`: the old embed and `<video>` are
      gone, and a `<video>` exists exactly when the new embed is one. */
  function WithEmbed(t: ShadowTree, e: Embed): (u: ShadowTree)
    ensures u.embed == e && (u.video.Some? <==> e.VideoTag?)
    ensures u.video.Some? ==> u.video.value == FreshVideo
    ensures u.(embed := t.embed, video := t.video) == t
  {
    t.(embed := e, video := if e.VideoTag? then Some(FreshVideo) else None)
  }

  /** `hidden` added to the poster and to the play button, where they exist. */
  function WithoutOverlay(t: ShadowTree): (u: ShadowTree)
    ensures u.posterHidden == !t.shell.poster.NoPoster? && u.playButtonHidden == t.shell.playButton
    ensures u.(posterHidden := t.posterHidden, playButtonHidden := t.playButtonHidden) == t
  {
    t.(posterHidden := !t.shell.poster.NoPoster?, playButtonHidden := t.shell.playButton)
  }

  /** What the activation handler does to the tree first: the overlay
      hidden and the container shown. */
  function Revealed(t: ShadowTree): (u: ShadowTree)
    ensures u.posterHidden == !t.shell.poster.NoPoster? && u.playButtonHidden == t.shell.playButton
    ensures !u.containerHidden
    ensures u.(posterHidden := t.posterHidden, playButtonHidden := t.playButtonHidden, containerHidden := t.containerHidden) == t
  {
    WithoutOverlay(t).(containerHidden := false)
  }

  /** Only elements that exist are hidden, and the `<video>` handle is there
      exactly when the container holds one. */
  predicate Coherent(t: ShadowTree) {
    (t.posterHidden ==> !t.shell.poster.NoPoster?)
    && (t.playButtonHidden ==> t.shell.playButton)
    && (t.video.Some? <==> t.embed.VideoTag?)
  }

  /** The listeners an element holds on its players: one of each or none on
      the current Vimeo player, none on the players it replaced, and exactly
      one of each on a marked `<video>`. */
  predicate PlayersBound(vimeo: Option<VimeoPlayer>, retired: seq<VimeoPlayer>, video: Option<MediaElement>) {
    (vimeo.Some? ==> WellBound(vimeo.value.listeners))
    && (forall k :: 0 <= k < |retired| ==> retired[k].listeners == multiset{})
    && (video.Some? ==>
          WellBound(video.value.listeners)
          && (video.value.listenersAttached <==> video.value.listeners == OneOfEach))
  }

  /** A load keeps the tree coherent, and its new `<video>`, if any, has no
      listeners yet. */
  lemma LoadKeepsBound(t: ShadowTree, e: Embed, vimeo: Option<VimeoPlayer>, retired: seq<VimeoPlayer>)
    requires Coherent(t) && PlayersBound(vimeo, retired, t.video)
    ensures Coherent(WithEmbed(t, e)) && Coherent(WithoutOverlay(WithEmbed(t, e))) && Coherent(Revealed(WithEmbed(t, e)))
    ensures PlayersBound(vimeo, retired, WithEmbed(t, e).video)
  {
  }

  /** A Vimeo iframe's `src` holds `autoplay=1` exactly when it was built
      with autoplay. */
  predicate VimeoFrameAutoplays(e: Embed) {
    e.Frame? && e.backend == Vimeo ==> (Contains(e.url, "autoplay=1") <==> e.allowAutoplay)
  }
}
