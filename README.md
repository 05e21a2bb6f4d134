# VideoPlayer custom element, modelled in Dafny

`<video-player>` is a web component that embeds a YouTube, Vimeo or self-hosted video behind an optional poster. It dispatches a unified set of `video-load`, `video-play`, `video-pause` and `video-ended` events. The repository holds two revisions of the element:

- **`lib/video-player.ts`** is the newer revision. It has:
  - a 500 ms debounce on `video-play`;
  - a 5000 ms hold-off after a poster click;
  - a readiness handshake with the YouTube player;
  - injection of the player API scripts;
  - error embeds for missing IDs.
- **`lib/jfm-video-player.ts`** is the earlier revision. It:
  - dispatches every event;
  - emits `video-load` when it loads eagerly;
  - emits `video-play` itself on activation;
  - always reveals the container when it loads.

The model has these parts:

- **Pure functions** for the parts of both revisions that only compute:
  - source-type detection and ID extraction (`Resolver`);
  - the aspect-ratio table and CSS ratio;
  - the attribute configuration;
  - the poster `<picture>`;
  - the activation targets;
  - the embed of `_loadVideo` (`Markup`).
- **The debounce** as a pure gate, with lemmas over whole runs of emissions (`Events`).
- **The page's `<head>` scripts and player-API globals** (`Page.Document`).
- **The backend players, reduced to their listeners and play calls** (`Backends`).
- **The shadow tree as one value**: the markup written, the `hidden` classes, the container's embed, the `<video>` element and the listeners attached (`Shadow`).
- **One class per revision**, whose methods follow the element's own private methods and callbacks:
  - `VideoPlayerElement.VideoPlayer`;
  - `JfmVideoPlayerElement.JfmVideoPlayer`.

  Each class keeps an append-only log of dispatched events and a FIFO queue standing for the 500 ms setup timers. Its invariants are preserved by every entry point:
  - `Valid()`: the tree is coherent, the handles are well bound, and the event log holds its own property (plays spaced in the newer revision, untimed details in the earlier one);
  - `Rendered()`: the tree is the one the attributes call for.
- **`registerVideoPlayer`** over a tag-to-class map with the browser's `define` rules (`Registry`).

The clock is a `now: int` parameter, in milliseconds, on every entry point that can emit. Event handlers, timer callbacks and API callbacks are methods that the environment calls, in any order.

Neither revision clears its YouTube state when it re-renders. The element keeps `_ytPlayer`, and the newer revision also keeps `_ytPlayerReady` and `_playOnReady`. After a switch from a YouTube `src` to a self-hosted one, the old player handle and flags stay in place (`VideoPlayerElement.SwitchFromYouTubeToSelfHosted`). The embed is self-hosted all the same, and the old player, whose iframe is gone, can no longer dispatch anything. A stale ready flag can also make a later YouTube activation call `playVideo` on the old handle before the new player exists.

The `Registry` lemmas bring out a consequence of the code. In a window, lib/video-player.ts registers its class as `video-player` when it loads. The browser refuses to define one class under two names, so a later `registerVideoPlayer` with any other tag name throws (`Registry.RegisterUnderSecondName`).

## Model

| member | source | states |
|---|---|---|
| Resolver.DetectPlayerType | lib/video-player.ts:168-174 | YouTube exactly when `src` contains `youtube.com` or `youtu.be`. Otherwise Vimeo exactly when it contains `vimeo.com`. Otherwise self-hosted. A URL with both patterns is YouTube. |
| Resolver.ExtractYouTubeIDLeftmost | lib/video-player.ts:610-615 | The result is empty exactly when the pattern matches nowhere. Otherwise it is the capture at the leftmost match. |
| Resolver.ExtractYouTubeIDShape | lib/video-player.ts:610-615 | The result is empty, or 11 characters none of which is `"`, `&`, `?`, `/` or whitespace. |
| Resolver.ExtractYouTubeIDOfUrl | lib/video-player.ts:610-615 | For each of `youtube.com/watch?v=`, `youtube.com/embed/`, `youtube.com/shorts/` and `youtu.be/`: a leading part without `y`, the prefix, a valid 11-character ID, then anything, yields that ID. |
| Resolver.ExtractVimeoIDLeftmost | lib/video-player.ts:618-622 | The result is empty exactly when `vimeo.com/` followed by digits occurs nowhere. Otherwise it is the digit run at the leftmost such match. |
| Resolver.ExtractVimeoIDShape | lib/video-player.ts:618-622 | The result is empty or a non-empty run of digits. |
| Resolver.ExtractVimeoIDOfUrl | lib/video-player.ts:618-622 | After a leading part without `v`, both `vimeo.com/<digits>` and `vimeo.com/video/<digits>`, followed by a non-digit or the end, yield the digits. |
| Resolver.VimeoIdNeedsPattern | lib/video-player.ts:618-622 | A non-empty Vimeo ID comes only from a URL containing `vimeo.com`, so a URL without it yields `""`. |
| Resolver.YouTubeIdNeedsPattern | lib/video-player.ts:610-615 | A non-empty YouTube ID comes only from a URL that is detected as YouTube. |
| Resolver.ExtractedIdMatchesType | lib/video-player.ts:458-483 | A URL with a YouTube ID is YouTube. A URL with a Vimeo ID is not self-hosted. A self-hosted URL has neither ID. |
| Text.Split | lib/jfm-video-player.ts:68 | `split('x')` yields at least one piece, and no piece contains the separator. |
| Text.JoinSplit | lib/jfm-video-player.ts:68 | Joining the pieces of a split with the separator gives back the string. |
| Text.SplitJoin | lib/jfm-video-player.ts:68 | Splitting pieces joined by a separator they lack gives back the pieces. |
| Text.SplitCount | lib/jfm-video-player.ts:68-70 | The number of pieces is one more than the number of separators. |
| Text.DigitsAreNumeric | lib/video-player.ts:180-184 | A non-empty digit string passes `!isNaN(Number(s))`. |
| Markup.AttributeOr | lib/video-player.ts:192-203 | `getAttribute(name) \|\| fallback`: the attribute when it is present and non-empty, the fallback otherwise. |
| Markup.ReadConfig | lib/video-player.ts:192-203 | The aspect ratio is `16x9` when the attribute is absent or empty, and the attribute otherwise. The alt text is never empty. |
| Markup.SetAttrReadsBack | lib/video-player.ts:57-65 | After `setAttribute`/`removeAttribute`, the name reads back the new value and every other name keeps its value. |
| Markup.SetAttrSame | lib/video-player.ts:57-65 | Setting an attribute to the value it already has leaves the attributes as they were. |
| Markup.SetAttrUnobserved | lib/video-player.ts:33-45 | Changing an attribute outside `observedAttributes` leaves the configuration unchanged. |
| Markup.SetSrcConfigures | lib/video-player.ts:33-45 | `src` is an observed attribute, and once set it is the source the next render reads. |
| Markup.ConfigReadsOnlyObserved | lib/video-player.ts:192-203 | Two attribute maps that agree on the observed names give the same configuration. |
| Markup.PaddingTop | lib/jfm-video-player.ts:94-102 | Padding, in hundredths, from the table 16x9 = 5625, 4x3 = 7500, 1x1 = 10000, 9x16 = 17778. Any other key gives 5625. |
| Markup.CssAspectRatioOfPair | lib/jfm-video-player.ts:67-77 | Two numeric parts around a single `x` give `a / b`. |
| Markup.CssAspectRatioNeedsOneX | lib/jfm-video-player.ts:67-77 | Any text without exactly one `x` gives `16 / 9`. |
| Markup.DigitPairRatio | lib/jfm-video-player.ts:67-77 | Digit strings `w` `x` `h` split into `[w, h]` and give `w / h`. |
| Markup.PaddingAgreesWithCssRatio | lib/jfm-video-player.ts:94-105 | Every table key is a digit pair. Its CSS ratio is that pair, and its padding is `100·h/w` percent, rounded to hundredths. |
| Markup.SourcesFromShape | lib/jfm-video-player.ts:114-133 | From a given format on: at most one `<source>` per format, carrying that format's URL, present exactly when the URL is set, in format order. |
| Markup.PictureSourcesShape | lib/jfm-video-player.ts:114-133 | The picture has a source for avif, webp, jpeg and png exactly when that key is truthy. The sources come in that order, each with its own URL. |
| Markup.BuildPoster | lib/jfm-video-player.ts:107-141 | A non-empty `posters` wins over `poster`. A `posters` value that does not parse gives no poster. A parsed one gives the picture with the fallback `jpg \|\| png \|\| ''`. Otherwise a non-empty `poster` gives an `<img>`. |
| Markup.BuildShell | lib/video-player.ts:252-324 | The rendered shell carries the aspect text, `autosize`, the poster and whether the play button is shown. |
| Markup.ActivationTargets | lib/video-player.ts:363-365 | The targets are the poster exactly when one exists, and the play button exactly when it is shown. |
| Markup.RoleButtonTargets | lib/jfm-video-player.ts:218-219 | Only `[role="button"]` elements are targets: the poster when one exists, never the play button. |
| Markup.ListenersForShape | lib/video-player.ts:366-433 | Each target gets a click listener and then a keydown listener, in target order. |
| Markup.VideoSources | lib/video-player.ts:490-508 | The decoded `sources` list, in order. With a `sources` that is absent, empty, unparsable or an empty list: one `<source src=src type="video/mp4">`. |
| Markup.LoadEmbed | lib/video-player.ts:458-513 | An error embed exactly when no setup is scheduled. Its backend is the detected type, and otherwise the scheduled setup is that type's. |
| Markup.LoadEmbedErrors | lib/video-player.ts:462-488 | Each error embed appears exactly when its trigger holds: an empty YouTube ID, an empty Vimeo ID, or an empty self-hosted `src`. |
| Markup.LoadEmbedFrames | lib/video-player.ts:464-511 | With an ID, the iframe URL is the type's embed URL. `allow` and fullscreen follow the arguments. The `<video>` autoplays as asked, with `VideoSources`. |
| Markup.JfmLoadEmbed | lib/jfm-video-player.ts:286-326 | The earlier revision never shows an error, and it always schedules the setup of the detected type. |
| Markup.JfmLoadEmbedAgrees | lib/jfm-video-player.ts:286-326 | The two revisions build the same embed whenever the newer one finds an ID or `src`. Where the newer one shows an error, the earlier one embeds the empty ID or empty `src`. |
| Markup.SetupList | lib/video-player.ts:468-511 | Zero or one setup timers, the one `ScheduledSetup` names. |
| Markup.YouTubeEmbedUrlRoundTrip | lib/video-player.ts:465-467 | The YouTube embed URL is itself detected as YouTube, and it yields the same ID back. |
| Markup.YouTubeEmbedUrlAutoplay | lib/video-player.ts:465-467 | The URL contains `&autoplay=1` exactly when the load is asked to autoplay. |
| Markup.VimeoEmbedUrlRoundTrip | lib/video-player.ts:478-480 | The Vimeo embed URL is detected as Vimeo, and it yields the same digits back. |
| Markup.VimeoEmbedUrlNotYouTube | lib/video-player.ts:478-480 | A Vimeo embed URL built from digits is never taken for YouTube. |
| Markup.VimeoEmbedUrlAutoplay | lib/video-player.ts:478-480 | The URL contains `autoplay=1` exactly when the load is asked to autoplay, because a digit ID holds no `=`. |
| Events.PlayGate | lib/video-player.ts:76-94 | A `video-play` is dropped exactly when `now - lastPlay < 500`. Non-play events pass and leave the mark. An accepted play sets the mark to `now`, or to `now + 5000` after a poster click. |
| Events.NoPlayAtStartup | lib/video-player.ts:34-81 | With the initial mark 0, a play at `now < 500` is dropped. |
| Events.PosterClickHoldsOff | lib/video-player.ts:91-93 | After a play accepted from a poster click at `now`, every play before `now + 5500` is dropped. |
| Events.RunSpacesPlays | lib/video-player.ts:76-94 | In any run of emissions, accepted plays are at least 500 ms apart (5500 ms after a poster click), the mark never moves back, and it covers every accepted play. |
| Events.RunKeepsOtherKinds | lib/video-player.ts:76-94 | Every non-play emission of a run is dispatched, and nothing outside the run is dispatched. |
| Events.RunWithoutPlays | lib/video-player.ts:76-94 | A run without plays dispatches everything and leaves the mark unchanged. |
| Page.InjectScript | lib/video-player.ts:328-339 | The script list grows by the API URL exactly when neither the global nor a tag with that `src` is present. Otherwise it is unchanged. |
| Page.InjectKeepsAtMostOne | lib/video-player.ts:328-352 | Injection never makes a second tag for the API, and it leaves one when the API is absent. |
| Page.InjectIdempotent | lib/video-player.ts:328-352 | A second probe adds nothing. |
| Page.InjectLeavesOthers | lib/video-player.ts:328-352 | Injecting one API leaves the count of the other API's tags unchanged. |
| Page.Document.InjectApiScript | lib/video-player.ts:328-352 | The head becomes `InjectScript` of the old head. The probed global is `window.YT` alone for YouTube and `window.Vimeo` for Vimeo, so a page with `YT` but no `YT.Player` gets no tag. The globals are unchanged. |
| Page.Document.ApiLoaded | lib/video-player.ts:526-531 | A finished API defines its global, and for YouTube also `YT.Player`. The other API's global and the head are unchanged. |
| Page.Document.YouTubeGlobalDefined | lib/video-player.ts:329-331 | The YouTube script ran: `window.YT` exists, while `YT.Player` and the Vimeo global are as they were. |
| Backends.ForwardedKind | lib/video-player.ts:586-603 | `play`, `pause` and `ended` are forwarded as `video-play`, `video-pause` and `video-ended`. |
| Backends.StateEvent | lib/video-player.ts:556-563 | Only PLAYING, PAUSED and ENDED are forwarded, to the matching events. |
| Backends.Unbind | lib/video-player.ts:575-579 | `off` for the three notifications leaves no listener on the old player. |
| Backends.BindVimeo | lib/video-player.ts:581-588 | A new Vimeo player, on the iframe it was given, has one listener of each kind, and one `play` call exactly when the iframe asks for autoplay. |
| Backends.AttachMedia | lib/video-player.ts:598-603 | Self-hosted setup marks the element and adds the three listeners, unless it is already marked. |
| Backends.AttachMediaIdempotent | lib/jfm-video-player.ts:385-396 | A second self-hosted setup on the same element changes nothing. |
| Backends.AttachFreshMedia | lib/jfm-video-player.ts:385-396 | On a fresh `<video>`, setup leaves exactly one play, one pause and one ended listener. |
| Shadow.Written | lib/video-player.ts:256-324 | The tree right after the `innerHTML` write: the container is hidden exactly when there is a poster, the container is empty, and there are no listeners. |
| Shadow.WithEmbed | lib/video-player.ts:515 | `container.innerHTML = embedHTML` replaces the embed, and a `<video>` exists exactly when the new embed is one. Nothing else changes. |
| Shadow.WithoutOverlay | lib/video-player.ts:517-522 | Hides the poster and the play button where they exist, and nothing else. |
| Shadow.Revealed | lib/video-player.ts:368-377 | Hides the overlay, shows the container, and changes nothing else. |
| Shadow.LoadKeepsBound | lib/video-player.ts:515-522 | A load keeps the tree coherent, and the new `<video>`, if any, has no listeners, so the listener invariant holds. |
| VideoPlayerElement.ScriptsAfterRender | lib/video-player.ts:326-352 | A self-hosted source injects nothing. YouTube or Vimeo adds at most that API's URL. |
| VideoPlayerElement.RenderKeepsOneTagPerApi | lib/video-player.ts:326-352 | A render never adds a second script tag for either API, so a page that starts with at most one per API keeps it that way across renders. |
| VideoPlayerElement.LoadedVimeoFrameAutoplays | lib/video-player.ts:472-483 | Every Vimeo iframe `_loadVideo` builds has `autoplay=1` in its `src` exactly when it was built with autoplay. |
| VideoPlayerElement.ActivationEvents | lib/video-player.ts:389-398 | An activation dispatches at most one event. It dispatches one exactly for YouTube when at least 500 ms have passed since the mark. |
| VideoPlayerElement.VideoPlayer.CurrentDetail | lib/video-player.ts:97-164 | The detail carries the type and the `src` attribute. It has timing data for self-hosted with a `<video>` present, and for YouTube or Vimeo once the player exists. |
| VideoPlayerElement.VideoPlayer.constructor | lib/video-player.ts:48-54 | Renders at once. The embed is the non-autoplay load, the event log is empty, the mark is 0, no player exists, and the head holds the probe's result. |
| VideoPlayerElement.VideoPlayer.SetAttribute | lib/video-player.ts:57-65 | The attributes are updated. A changed observed value leaves exactly what `Rerendered` says: the overlay back, the container hidden exactly when there is a poster, the non-autoplay embed with its setup queued, the probed head, new container content with no earlier player live, and log, mark and player handles kept. An unchanged value, or a name outside the observed list, leaves the tree, the type, the timers and the head unchanged. |
| VideoPlayerElement.VideoPlayer.AttributeChangedCallback | lib/video-player.ts:57-65 | A changed value re-renders, with all of `Rerendered`. An equal value changes nothing. |
| VideoPlayerElement.VideoPlayer.Render | lib/video-player.ts:191-435 | Rewrites the tree from the attributes (`Rendered`) and leaves exactly `Rerendered`: the overlay shown, the container hidden exactly when there is a poster, the type set, the scripts probed, the non-autoplay embed in new container content, its setup queued, no earlier YouTube or Vimeo player live, and the log, mark, ready flags and player handles unchanged. |
| VideoPlayerElement.VideoPlayer.InjectApiScripts | lib/video-player.ts:326-352 | Sets the player type and adds the API script exactly as `ScriptsAfterRender` says. |
| VideoPlayerElement.VideoPlayer.LoadVideo | lib/video-player.ts:438-523 | New container content holds the embed for the rendered config, with the overlay hidden when asked. A setup is queued exactly when the embed is not an error. No player built before is live afterwards. |
| VideoPlayerElement.VideoPlayer.AttachActivationListeners | lib/video-player.ts:363-434 | The loop leaves two listeners per target in order (`ListenersFor`), and nothing else changes. |
| VideoPlayerElement.VideoPlayer.OnClick | lib/video-player.ts:366-417 | A click on a target with a listener does all the activation handler does (`Activated`). Any other click changes nothing. |
| VideoPlayerElement.VideoPlayer.OnKeyDown | lib/video-player.ts:418-433 | Enter or Space on a target with a listener does all of `Activated`. Any other key or element changes nothing. |
| VideoPlayerElement.VideoPlayer.Activate | lib/video-player.ts:367-416 | `Activated`: hides the overlay and shows the container. YouTube: reloads with autoplay into new container content, emits the debounced poster-click play, which moves the mark to now+5000 when it goes through, and then calls `playVideo` once if the player is bound and ready, or sets `playOnReady`. Vimeo: one `play` on an existing player. Self-hosted: one `play` on an existing `<video>`. Neither of the last two emits or reloads. |
| VideoPlayerElement.VideoPlayer.PlayYouTube | lib/video-player.ts:379-405 | The YouTube branch leaves exactly `Activated`, including the mark at now+5000 after an accepted poster-click play. |
| VideoPlayerElement.VideoPlayer.ReloadWithAutoplay | lib/video-player.ts:368-390 | The overlay is hidden, the container shown and the autoplay embed loaded into new content. The poster-click play goes through the debounce. When it passes, the mark becomes now+5000; otherwise the mark is unchanged. Either way a second play at `now` is dropped. |
| VideoPlayerElement.VideoPlayer.ActivateOther | lib/video-player.ts:406-416 | For Vimeo and self-hosted sources, the activation leaves exactly `Activated`. |
| VideoPlayerElement.VideoPlayer.PlayWhenReady | lib/video-player.ts:391-405 | Right after the poster-click play, the second play is dropped. A ready player gets one `playVideo`. Otherwise `playOnReady` is set and nothing is played. |
| VideoPlayerElement.VideoPlayer.EmitEvent | lib/video-player.ts:71-165 | Dropped exactly when the gate drops it. Otherwise exactly one event with the current detail, and the mark is the gate's. Nothing else changes. |
| VideoPlayerElement.VideoPlayer.OnYouTubeReady | lib/video-player.ts:549-555 | For a live player, `ytReady` is set, and `playVideo` is called once exactly when `playOnReady` was set, after which `playOnReady` is false. A player whose iframe was replaced gets no `onReady`. |
| VideoPlayerElement.VideoPlayer.OnYouTubeStateChange | lib/video-player.ts:556-563 | From a live player, PLAYING, PAUSED and ENDED go through `_emitEvent`, with the event logged and the mark moved exactly as the gate says. Other states emit nothing. A player whose iframe was replaced reports nothing. |
| VideoPlayerElement.VideoPlayer.OnVimeoEvent | lib/video-player.ts:586-588 | A notification with a listener, from a player whose iframe is still in the container, goes through `_emitEvent`, with the gate's event and mark. Anything else changes nothing. |
| VideoPlayerElement.VideoPlayer.OnMediaEvent | lib/video-player.ts:601-603 | A `<video>` event the element listens for goes through `_emitEvent`, with the gate's event and mark: a pause or an end leaves the mark. |
| VideoPlayerElement.VideoPlayer.RunNextSetup | lib/video-player.ts:468-511 | The oldest timer is removed and its setup runs, leaving exactly `YouTubeSetUp`, `VimeoSetUp` or `SelfHostedSetUp`: a YouTube player bound on the live iframe or that iframe queued for the API, a Vimeo player rebound, or the `<video>`'s listeners attached. With no timer pending, nothing changes. |
| VideoPlayerElement.VideoPlayer.SetupYouTube | lib/video-player.ts:526-543 | Without `#ytPlayer`, nothing changes. With `window.YT && window.YT.Player`, a new player on the current iframe, which is live. Otherwise the current iframe joins the initialisations waiting for the API. |
| VideoPlayerElement.VideoPlayer.InitializeYouTubePlayer | lib/video-player.ts:546-566 | A new, not yet ready player on the given iframe replaces the old. |
| VideoPlayerElement.VideoPlayer.OnYouTubeIframeApiReady | lib/video-player.ts:535-541 | Every chained initialisation runs, in order, on the iframe it found. The last one's player is the element's, and none waits afterwards. |
| VideoPlayerElement.VideoPlayer.SetupVimeo | lib/video-player.ts:569-589 | The old player loses its listeners. The new player, on the current iframe and live, has one of each, and one `play` exactly when the embed was built with autoplay. Without the API, only the detaching happens. |
| VideoPlayerElement.VideoPlayer.SetupSelfHosted | lib/video-player.ts:592-607 | The `<video>` gets `AttachMedia`, which is idempotent. |
| VideoPlayerElement.VideoPlayer.WriteTree | lib/video-player.ts:256-352 | The tree `Written` for the attributes, the type of its `src`, and the head after the probe. |
| VideoPlayerElement.YouTubeActivationHoldsOff | lib/video-player.ts:379-390 | After a poster click on a YouTube element whose `video-play` goes through, the mark is now+5000. A PLAYING from the player before now+5500 is therefore dropped, and only the click's play is logged. |
| VideoPlayerElement.MediaPlayPausePlay | lib/video-player.ts:601-603 | On a listened `<video>`, a play, a pause 100 ms later and a play 600 ms after the first are all logged, and the mark ends at the second play. |
| VideoPlayerElement.SwitchFromYouTubeToSelfHosted | lib/video-player.ts:57-65 | Setting a self-hosted `src` on an element rendered for YouTube leaves a `<video>` (or the missing-`src` error) and the self-hosted type. Afterwards no player is live, and neither `onStateChange` nor `onReady` of the old player dispatches anything. The old player handle, `ytReady` and `playOnReady` are kept. |
| JfmVideoPlayerElement.JfmLoadedVimeoFrameAutoplays | lib/jfm-video-player.ts:296-303 | The earlier revision's Vimeo iframe has `autoplay=1` exactly when it was built with autoplay, even with an empty ID. |
| JfmVideoPlayerElement.JfmActivationEvents | lib/jfm-video-player.ts:221-229 | The handler emits one `video-play` exactly when a poster element exists and the type is not Vimeo. |
| JfmVideoPlayerElement.JfmVideoPlayer.Listened | lib/jfm-video-player.ts:147-254 | The tree a render writes: only the poster is a target, nothing is hidden but the container under a poster, and the container is empty. |
| JfmVideoPlayerElement.JfmVideoPlayer.CurrentDetail | lib/jfm-video-player.ts:45-56 | The detail is the type and the `src` attribute, with no timing data. |
| JfmVideoPlayerElement.JfmVideoPlayer.constructor | lib/jfm-video-player.ts:27-33 | Renders at once. Without a poster: one `video-load` and the non-autoplay load. With one: no event, no embed and the type still self-hosted. |
| JfmVideoPlayerElement.JfmVideoPlayer.SetAttribute | lib/jfm-video-player.ts:35-43 | The attributes are updated. A changed observed value leaves exactly `Rerendered` for the new attributes. An unchanged value, or an unobserved name, leaves the tree, the type, the timers and the log unchanged. |
| JfmVideoPlayerElement.JfmVideoPlayer.AttributeChangedCallback | lib/jfm-video-player.ts:35-43 | A changed value re-renders, with all of `Rerendered`. An equal value changes nothing. |
| JfmVideoPlayerElement.JfmVideoPlayer.Render | lib/jfm-video-player.ts:79-266 | `Rerendered`: the tree of `Listened`. Without poster markup, exactly one `video-load`, then the load with `autoplay = false` and its setup queued. With a poster: nothing is embedded, no event, the container hidden and the overlay shown. The container content is new, so no earlier player is live. |
| JfmVideoPlayerElement.JfmVideoPlayer.WriteTree | lib/jfm-video-player.ts:143-254 | The tree of `Listened` in new, empty container content, so no player is live. |
| JfmVideoPlayerElement.JfmVideoPlayer.LoadEagerly | lib/jfm-video-player.ts:256-265 | Sets the type, emits `video-load` with it, and loads without autoplay. |
| JfmVideoPlayerElement.JfmVideoPlayer.AttachActivationListeners | lib/jfm-video-player.ts:217-254 | The loop leaves two listeners per target in order, and nothing else changes. |
| JfmVideoPlayerElement.JfmVideoPlayer.LoadVideo | lib/jfm-video-player.ts:268-335 | Whatever the type: sets the type, embeds into new container content, queues setup, shows the container, and hides the poster and play button. No player built before is live afterwards. |
| JfmVideoPlayerElement.JfmVideoPlayer.OnClick | lib/jfm-video-player.ts:220-237 | Only the poster can be activated, and a click on it does all of `Activated`: the type, the conditional `video-play` and the autoplay load. Any other click changes nothing. |
| JfmVideoPlayerElement.JfmVideoPlayer.OnKeyDown | lib/jfm-video-player.ts:238-252 | Enter or Space on the poster does all of `Activated`. Anything else changes nothing. |
| JfmVideoPlayerElement.JfmVideoPlayer.Activate | lib/jfm-video-player.ts:221-236 | `Activated`: sets the type, emits `video-play` when a poster exists and the type is not Vimeo, then loads with autoplay into new content, showing the container and hiding the overlay. |
| JfmVideoPlayerElement.JfmVideoPlayer.AnnounceActivation | lib/jfm-video-player.ts:221-229 | Sets the type of the rendered `src`, and emits just the events of `JfmActivationEvents`. |
| JfmVideoPlayerElement.JfmVideoPlayer.EmitEvent | lib/jfm-video-player.ts:45-56 | Every call dispatches exactly one event, with the type and the `src` and no timing data. There is no debounce. |
| JfmVideoPlayerElement.JfmVideoPlayer.OnYouTubeReady | lib/jfm-video-player.ts:345-350 | `onReady` of a live player always calls `playVideo` once. A player whose iframe was replaced gets no `onReady`. |
| JfmVideoPlayerElement.JfmVideoPlayer.OnYouTubeStateChange | lib/jfm-video-player.ts:351-358 | From a live player, PLAYING, PAUSED and ENDED are each dispatched as one event. A player whose iframe was replaced reports nothing. |
| JfmVideoPlayerElement.JfmVideoPlayer.OnVimeoEvent | lib/jfm-video-player.ts:380-382 | A notification with a listener, from a player whose iframe is still in the container, is dispatched as one event. Anything else changes nothing. |
| JfmVideoPlayerElement.JfmVideoPlayer.OnMediaEvent | lib/jfm-video-player.ts:394-396 | A `<video>` event with a listener is dispatched as one event. |
| JfmVideoPlayerElement.JfmVideoPlayer.RunNextSetup | lib/jfm-video-player.ts:293-325 | The oldest timer is removed and its setup runs, leaving exactly `YouTubeSetUp`, `VimeoSetUp` or `SelfHostedSetUp`: a YouTube player bound on the live iframe, a Vimeo player rebound, or the `<video>`'s listeners attached. With no timer pending, nothing changes. |
| JfmVideoPlayerElement.JfmVideoPlayer.SetupYouTube | lib/jfm-video-player.ts:337-361 | With `#ytPlayer`, `window.YT` and `YT.Player`: a new player on the current iframe, which is live. Otherwise the constructor throws or the setup returns early, and nothing changes. |
| JfmVideoPlayerElement.JfmVideoPlayer.SetupVimeo | lib/jfm-video-player.ts:363-383 | The previous player's listeners are removed before the new one, on the current iframe, gets exactly one of each. `play()` is called exactly when the embed asked for autoplay. |
| JfmVideoPlayerElement.JfmVideoPlayer.SetupSelfHosted | lib/jfm-video-player.ts:385-400 | The first call marks the `<video>` and adds one listener of each kind. Later calls add nothing. |
| JfmVideoPlayerElement.JfmSwitchFromYouTubeToSelfHosted | lib/jfm-video-player.ts:35-43 | Setting a self-hosted `src` on an element rendered for YouTube re-renders. Without a poster the embed is a `<video>` at once and one `video-load` is logged. With one the container is empty. Either way no player is live afterwards, and the old player's callbacks dispatch nothing. |
| Registry.Define | lib/video-player.ts:636-637 | `define` throws exactly when the name, or the class under another name, is already defined. Otherwise it adds exactly that entry. |
| Registry.RegisterKeepsDefinitions | lib/jfm-video-player.ts:416-420 | `registerVideoPlayer` never changes an existing definition. A taken name is left as it is, and a registration that returns leaves the tag defined. |
| Registry.RegisterIdempotent | lib/jfm-video-player.ts:416-420 | Registering twice is the same as registering once. |
| Registry.RegisterUnderSecondName | lib/video-player.ts:625-639 | Once a class holds one tag, registering it under a new tag throws. |
| Registry.CustomElementRegistry.Get | lib/video-player.ts:636 | `customElements.get` returns the class defined under the name, if any. |
| Registry.CustomElementRegistry.RegisterVideoPlayer | lib/video-player.ts:635-639 | Does what `Register` says: on a throw it changes nothing. |
| Registry.CustomElementRegistry.LoadVideoPlayerModule | lib/video-player.ts:625-632 | On load in a window, the newer revision registers itself as `video-player` unless the tag is taken. |

## Left out

- **Browser and real time.** The DOM, the HTML and CSS text, focus, `preventDefault` and passive listener options are not modelled. Real timers are replaced by the `pending` queue, and the 600 ms focus timer is dropped. The tree is a structured value: the CSS `padding-top` and `aspect-ratio` are derived from the shell's aspect text.
- **`JSON.parse` of `posters` and `sources`.** This is a pair of decoder maps (`Markup.Decoders`), not a JSON parser. A parse that throws, and a property read on a parsed `null`, both decode to `None`.
- **JavaScript `Number()`/`isNaN`.** These are modelled by the predicate `Text.IsJsNumeric`, which recognises the numeric string grammar. `\s` is the ECMAScript whitespace set. Unicode beyond that is not modelled.
- **The second clock read of a poster-click play.** `_emitEvent` reads `performance.now()` once for the debounce and again for the five-second bias (lib/video-player.ts:74, 92). The model takes both reads as the same `now`, so the mark is exactly now+5000 where the source's is now+5000 or a little later.
- **Floating point.** Padding is in integer hundredths, so 177.78 is 17778. The clock is an integer number of milliseconds. `currentTime` and `duration` are reduced to whether the detail carries timing data.
- **The Vimeo `Promise.all` in `_emitEvent`** (lib/video-player.ts:133-150) is asynchronous. The model dispatches the event at once, so the ordering against later events is not captured.
- **The player APIs and script loading.** The YouTube and Vimeo APIs, script loading over the network and `YT.PlayerState` are abstract. A player is its listeners, its `play` calls, whether its methods are bound, and a serial number. When an API appears is up to the environment (`Page.Document.ApiLoaded`).
- **`onYouTubeIframeAPIReady`** is a global callback chained across every element on the page. The model keeps, per element, the list of iframes whose initialisations wait for the API (`ytAwaiting`). The other elements' links in the chain are not modelled.
- **Messages from a removed iframe.** Each write of the container's `innerHTML` is a new container content (`content`), and every player records the content its iframe belonged to. The callbacks of a player whose iframe has been replaced are modelled as doing nothing (`YouTubeLive`, `VimeoLive`). The source does not guard them: the model assumes that an iframe taken out of the page sends no more `onReady`, `onStateChange` or Vimeo messages.
- **Several YouTube players on one iframe.** Each setup timer runs `new YT.Player` on the `#ytPlayer` it finds, and nothing detaches an earlier player's `onReady`/`onStateChange`. Two loads within 500 ms therefore leave two players on the same live iframe. The model keeps one player per element (`yt`): a player superseded by a later setup is silent, and the events its callbacks would still dispatch are not modelled.
- **A `<video>` removed by a re-render.** When its `<video>` is removed from the page, a playing self-hosted video is paused by the browser. Its still-attached `pause` listener then reaches `_emitEvent`. `OnMediaEvent` sees only the current `<video>`, so the model assumes a removed `<video>` sends nothing and does not produce that `video-pause`.
- **Attribute-name case.** Attribute names are compared exactly. The HTML lowercasing of a name such as `setAttribute('SRC', …)` is not modelled.
- **The object-prototype key quirk** of the `aspectRatios` lookup (lib/video-player.ts:212-213) is not modelled. A key such as `constructor` is treated like any other unknown key.
- **The container guard** `if (!container) return` of `_loadVideo` is not modelled. It never fires, because a render always writes the container before any load.
- **Tag-name validity** is not modelled. The rule that custom element names contain a hyphen is not checked by the registry.
- **An attribute changed while a load is in flight** is not modelled separately. `_loadVideo` reads the `src`, `sources` and `allowfullscreen` the render captured, so the model loads from the rendered configuration.
- **The YouTube ID regex.** The pattern accepts any 11 permitted characters after a prefix, whatever follows them; the model follows the code. A longer run yields its first 11 characters.
- **dist/, the demo page, the declaration files and the build configuration** are not part of this model. The dist bundle is an output of lib/video-player.ts.
