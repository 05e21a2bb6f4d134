/** What a render produces, as structured records instead of HTML text: the
    configuration read from the attributes, the aspect-ratio wrapper, the poster
    picker, the play button, the activation targets and the embed that
    `_loadVideo` puts into the video container. */
module Markup {
  import opened Text
  import opened Wrappers
  import opened Resolver

  // ---------------------------------------------------------------------------
  // Attributes and configuration

  /** The element's attributes; a missing key is an absent attribute. */
  type Attributes = map<string, string>

  /** `observedAttributes` */
  const ObservedAttributes: seq<string> :=
    ["src", "sources", "poster", "posters", "posteralt", "playbutton", "allowfullscreen", "aspect-ratio", "autosize"]

  /** `getAttribute(name)` */
  function GetAttribute(attrs: Attributes, name: string): Option<string> {
    if name in attrs then Some(attrs[name]) else None
  }

  /** `getAttribute(name) || fallback`: `null` and `""` both give the fallback. */
  function AttributeOr(attrs: Attributes, name: string, fallback: string): (r: string)
    ensures r == fallback || (name in attrs && r == attrs[name] != "")
  {
    if name in attrs && attrs[name] != "" then attrs[name] else fallback
  }

  const DefaultPosterAlt := "Video preview image"
  const DefaultAspectRatio := "16x9"

  /** The configuration a render derives from the attributes. */
  datatype Config = Config(
    src: string,
    sources: Option<string>,
    poster: string,
    posters: Option<string>,
    posterAlt: string,
    showPlayButton: bool,
    allowFullscreen: bool,
    autosize: bool,
    aspectRatio: string)

  function ReadConfig(attrs: Attributes): (c: Config)
    ensures c.aspectRatio == DefaultAspectRatio || ("aspect-ratio" in attrs && c.aspectRatio == attrs["aspect-ratio"] != "")
    ensures ("aspect-ratio" !in attrs || attrs["aspect-ratio"] == "") ==> c.aspectRatio == DefaultAspectRatio
    ensures c.posterAlt != ""
  {
    Config(
      src := AttributeOr(attrs, "src", ""),
      sources := GetAttribute(attrs, "sources"),
      poster := AttributeOr(attrs, "poster", ""),
      posters := GetAttribute(attrs, "posters"),
      posterAlt := AttributeOr(attrs, "posteralt", DefaultPosterAlt),
      showPlayButton := "playbutton" in attrs,
      allowFullscreen := "allowfullscreen" in attrs,
      autosize := "autosize" in attrs,
      aspectRatio := AttributeOr(attrs, "aspect-ratio", DefaultAspectRatio))
  }

  /** `setAttribute(name, value)`, or `removeAttribute(name)` for `None`. */
  function SetAttr(attrs: Attributes, name: string, value: Option<string>): Attributes {
    if value.Some? then attrs[name := value.value] else attrs - {name}
  }

  /** The attribute set reads back as given, and every other one is kept. */
  lemma SetAttrReadsBack(attrs: Attributes, name: string, value: Option<string>, other: string)
    ensures GetAttribute(SetAttr(attrs, name, value), name) == value
    ensures other != name ==> GetAttribute(SetAttr(attrs, name, value), other) == GetAttribute(attrs, other)
  {
  }

  /** Setting an attribute to the value it has changes nothing. */
  lemma SetAttrSame(attrs: Attributes, name: string, value: Option<string>)
    requires GetAttribute(attrs, name) == value
    ensures SetAttr(attrs, name, value) == attrs
  {
    if value.None? {
      assert name !in attrs;
    }
  }

  /** An attribute that is not observed does not feed the configuration. */
  lemma SetAttrUnobserved(attrs: Attributes, name: string, value: Option<string>)
    requires name !in ObservedAttributes
    ensures ReadConfig(SetAttr(attrs, name, value)) == ReadConfig(attrs)
  {
    var b := SetAttr(attrs, name, value);
    forall k | 0 <= k < |ObservedAttributes|
      ensures GetAttribute(attrs, ObservedAttributes[k]) == GetAttribute(b, ObservedAttributes[k])
    {
      SetAttrReadsBack(attrs, name, value, ObservedAttributes[k]);
    }
    ConfigReadsOnlyObserved(attrs, b);
  }

  /** `src` is observed, and once set it is the source a render reads. */
  lemma SetSrcConfigures(attrs: Attributes, src: string)
    ensures "src" in ObservedAttributes
    ensures ReadConfig(SetAttr(attrs, "src", Some(src))).src == src
  {
    assert ObservedAttributes[0] == "src";
  }

  /** Only observed attributes feed the configuration, so a change to any
      other attribute, which triggers no render, cannot make it stale. */
  lemma ConfigReadsOnlyObserved(a: Attributes, b: Attributes)
    requires forall k :: 0 <= k < |ObservedAttributes| ==>
               GetAttribute(a, ObservedAttributes[k]) == GetAttribute(b, ObservedAttributes[k])
    ensures ReadConfig(a) == ReadConfig(b)
  {
    assert GetAttribute(a, ObservedAttributes[0]) == GetAttribute(b, ObservedAttributes[0]);
    assert GetAttribute(a, ObservedAttributes[1]) == GetAttribute(b, ObservedAttributes[1]);
    assert GetAttribute(a, ObservedAttributes[2]) == GetAttribute(b, ObservedAttributes[2]);
    assert GetAttribute(a, ObservedAttributes[3]) == GetAttribute(b, ObservedAttributes[3]);
    assert GetAttribute(a, ObservedAttributes[4]) == GetAttribute(b, ObservedAttributes[4]);
    assert GetAttribute(a, ObservedAttributes[5]) == GetAttribute(b, ObservedAttributes[5]);
    assert GetAttribute(a, ObservedAttributes[6]) == GetAttribute(b, ObservedAttributes[6]);
    assert GetAttribute(a, ObservedAttributes[7]) == GetAttribute(b, ObservedAttributes[7]);
    assert GetAttribute(a, ObservedAttributes[8]) == GetAttribute(b, ObservedAttributes[8]);
  }

  // ---------------------------------------------------------------------------
  // Aspect ratio

  /** The `aspectRatios` table, in hundredths of a percent of padding-top. */
  const AspectRatios: map<string, nat> :=
    map["16x9" := 5625, "4x3" := 7500, "1x1" := 10000, "9x16" := 17778]

  /** `aspectRatios[aspectRatio] || 56.25` */
  function PaddingTop(aspect: string): (hundredths: nat)
    ensures aspect == "16x9" ==> hundredths == 5625
    ensures aspect == "4x3" ==> hundredths == 7500
    ensures aspect == "1x1" ==> hundredths == 10000
    ensures aspect == "9x16" ==> hundredths == 17778
    ensures aspect !in AspectRatios ==> hundredths == AspectRatios[DefaultAspectRatio] == 5625
  {
    if aspect in AspectRatios then AspectRatios[aspect] else 5625
  }

  /** `_getCssAspectRatio` */
  function CssAspectRatio(aspect: string): string {
    var parts := Split(aspect, 'x');
    if |parts| == 2 && IsJsNumeric(parts[0]) && IsJsNumeric(parts[1])
    then parts[0] + " / " + parts[1]
    else "16 / 9"
  }

  /** Two numeric parts around a single `x` give `a / b`. */
  lemma CssAspectRatioOfPair(a: string, b: string)
    requires 'x' !in a && 'x' !in b && IsJsNumeric(a) && IsJsNumeric(b)
    ensures CssAspectRatio(a + "x" + b) == a + " / " + b
  {
    SplitPair(a, b);
    var parts := Split(a + "x" + b, 'x');
    assert parts[0] == a && parts[1] == b;
  }

  /** Without exactly one `x` the ratio falls back to `16 / 9`. */
  lemma CssAspectRatioNeedsOneX(aspect: string)
    requires CountChar(aspect, 'x') != 1
    ensures CssAspectRatio(aspect) == "16 / 9"
  {
    SplitCount(aspect, 'x');
  }

  /** Value of a string of digits. */
  function DigitsValue(s: string): nat
    requires AllDigits(s)
    decreases |s|
  {
    if |s| == 0 then 0 else DigitsValue(s[..|s| - 1]) * 10 + (s[|s| - 1] as int - '0' as int)
  }

  /** `w x h` has a padding-top of `100 * h / w` percent, in hundredths rounded half up. */
  function RatioPadding(w: nat, h: nat): nat
    requires w > 0
  {
    (20000 * h + w) / (2 * w)
  }

  lemma SplitPair(a: string, b: string)
    requires 'x' !in a && 'x' !in b
    ensures Split(a + "x" + b, 'x') == [a, b]
  {
    SplitJoin([a, b], 'x');
    assert Join([a, b], 'x') == a + "x" + b;
  }

  /** A table key `w` `x` `h` of digits: its CSS ratio is `w / h`. */
  lemma DigitPairRatio(w: string, h: string)
    requires |w| > 0 && |h| > 0 && AllDigits(w) && AllDigits(h)
    ensures Split(w + "x" + h, 'x') == [w, h]
    ensures CssAspectRatio(w + "x" + h) == w + " / " + h
  {
    assert 'x' !in w by { forall k | 0 <= k < |w| ensures w[k] != 'x' { assert IsDigit(w[k]); } }
    assert 'x' !in h by { forall k | 0 <= k < |h| ensures h[k] != 'x' { assert IsDigit(h[k]); } }
    SplitPair(w, h);
    DigitsAreNumeric(w);
    DigitsAreNumeric(h);
    CssAspectRatioOfPair(w, h);
  }

  /** `key` is `w` `x` `h` for digit strings whose CSS ratio is `w / h` and
      whose padding is `h / w` as a percentage. */
  predicate RatioEntry(key: string, w: string, h: string) {
    key == w + "x" + h && |w| > 0 && |h| > 0 && AllDigits(w) && AllDigits(h)
    && CssAspectRatio(key) == w + " / " + h
    && DigitsValue(w) > 0 && PaddingTop(key) == RatioPadding(DigitsValue(w), DigitsValue(h))
  }

  lemma RatioEntryOf(w: string, h: string, wv: nat, hv: nat)
    requires |w| > 0 && |h| > 0 && AllDigits(w) && AllDigits(h)
    requires DigitsValue(w) == wv > 0 && DigitsValue(h) == hv
    requires PaddingTop(w + "x" + h) == RatioPadding(wv, hv)
    ensures RatioEntry(w + "x" + h, w, h)
  {
    DigitPairRatio(w, h);
  }

  /** Every key of the padding table is a pair of digit strings whose CSS
      ratio is that pair, and whose padding is that ratio as a percentage: the
      two presentations of a known ratio agree. */
  lemma PaddingAgreesWithCssRatio(key: string)
    requires key in AspectRatios
    ensures exists w, h :: RatioEntry(key, w, h)
  {
    if key == "16x9" {
      assert "16x9" == "16" + "x" + "9";
      RatioEntryOf("16", "9", 16, 9);
      assert RatioEntry(key, "16", "9");
    } else if key == "4x3" {
      assert "4x3" == "4" + "x" + "3";
      RatioEntryOf("4", "3", 4, 3);
      assert RatioEntry(key, "4", "3");
    } else if key == "1x1" {
      assert "1x1" == "1" + "x" + "1";
      RatioEntryOf("1", "1", 1, 1);
      assert RatioEntry(key, "1", "1");
    } else {
      assert key == "9x16" == "9" + "x" + "16";
      RatioEntryOf("9", "16", 9, 16);
      assert RatioEntry(key, "9", "16");
    }
  }

  // ---------------------------------------------------------------------------
  // Poster

  /** The keys of the parsed `posters` JSON; `""` for a key that is absent or falsy. */
  datatype PosterSet = PosterSet(avif: string, webp: string, jpg: string, png: string)

  /** A `<source type=… srcset=…>` of the `<picture>`. */
  datatype ImageSource = ImageSource(mime: string, srcset: string)

  datatype Poster =
    | NoPoster
    | Picture(sources: seq<ImageSource>, fallback: string, alt: string)
    | Image(src: string, alt: string)

  /** The picture's formats, in the order the browser tries them. */
  function PosterFormat(k: nat): string
    requires k < 4
  {
    if k == 0 then "image/avif" else if k == 1 then "image/webp" else if k == 2 then "image/jpeg" else "image/png"
  }

  function PosterUrl(p: PosterSet, k: nat): string
    requires k < 4
  {
    if k == 0 then p.avif else if k == 1 then p.webp else if k == 2 then p.jpg else p.png
  }

  function FormatRank(mime: string): (k: nat)
    ensures k <= 4
    ensures k < 4 ==> PosterFormat(k) == mime
  {
    if mime == "image/avif" then 0
    else if mime == "image/webp" then 1
    else if mime == "image/jpeg" then 2
    else if mime == "image/png" then 3
    else 4
  }

  lemma RankOfFormat(f: nat)
    requires f < 4
    ensures FormatRank(PosterFormat(f)) == f
  {
    assert "image/avif"[6] == 'a' && "image/webp"[6] == 'w' && "image/jpeg"[6] == 'j' && "image/png"[6] == 'p';
  }

  /** The sources for the formats from `k` on. */
  function SourcesFrom(p: PosterSet, k: nat): seq<ImageSource>
    requires k <= 4
    decreases 4 - k
  {
    if k == 4 then []
    else
      var url := PosterUrl(p, k);
      (if url != "" then [ImageSource(PosterFormat(k), url)] else []) + SourcesFrom(p, k + 1)
  }

  /** The sources from format `k` on: at most one per format, each the
      format's own URL and only when that URL is set, in format order. */
  lemma {:induction false} SourcesFromShape(p: PosterSet, k: nat)
    requires k <= 4
    ensures var r := SourcesFrom(p, k);
            |r| <= 4 - k
            && (forall i :: 0 <= i < |r| ==>
                  k <= FormatRank(r[i].mime) < 4 && r[i].srcset == PosterUrl(p, FormatRank(r[i].mime)) != "")
            && (forall i, j :: 0 <= i < j < |r| ==> FormatRank(r[i].mime) < FormatRank(r[j].mime))
            && (forall f :: k <= f < 4 ==>
                  (ImageSource(PosterFormat(f), PosterUrl(p, f)) in r <==> PosterUrl(p, f) != ""))
    decreases 4 - k
  {
    if k < 4 {
      RankOfFormat(k);
      SourcesFromShape(p, k + 1);
      var url := PosterUrl(p, k);
      var head := if url != "" then [ImageSource(PosterFormat(k), url)] else [];
      var rest := SourcesFrom(p, k + 1);
      assert SourcesFrom(p, k) == head + rest;
      forall i | 0 <= i < |rest| ensures rest[i] != ImageSource(PosterFormat(k), url) {
        assert FormatRank(rest[i].mime) > k;
      }
      forall f | k < f < 4 ensures ImageSource(PosterFormat(f), PosterUrl(p, f)) !in head {
        RankOfFormat(f);
      }
    }
  }

  /** The `<source>` children: one per truthy key, avif, then webp, jpeg, png. */
  function PictureSources(p: PosterSet): seq<ImageSource> {
    SourcesFrom(p, 0)
  }

  /** A format has a `<source>` exactly when its key is set; the sources are
      in the order avif, webp, jpeg, png; each carries its own format's URL. */
  lemma PictureSourcesShape(p: PosterSet)
    ensures var r := PictureSources(p);
            |r| <= 4
            && (forall f :: 0 <= f < 4 ==>
                  (ImageSource(PosterFormat(f), PosterUrl(p, f)) in r <==> PosterUrl(p, f) != ""))
            && (forall i, j :: 0 <= i < j < |r| ==> FormatRank(r[i].mime) < FormatRank(r[j].mime))
            && (forall i :: 0 <= i < |r| ==>
                  FormatRank(r[i].mime) < 4 && r[i].srcset == PosterUrl(p, FormatRank(r[i].mime)) != "")
  {
    SourcesFromShape(p, 0);
  }

  /** `parsed.jpg || parsed.png || ''` */
  function PosterFallback(p: PosterSet): string {
    if p.jpg != "" then p.jpg else p.png
  }

  /** How the JavaScript runtime turns attribute text into data, which the model
      does not reimplement: `JSON.parse` of `posters` and of `sources` followed by
      the property reads, with `None` for a parse that throws. */
  datatype Decoders = Decoders(
    parsedPosters: imap<string, PosterSet>,
    parsedSources: imap<string, seq<MediaSource>>)
  {
    /** `JSON.parse(text)` as a poster set, or `None` when it throws. */
    function posters(text: string): Option<PosterSet> {
      if text in parsedPosters then Some(parsedPosters[text]) else None
    }

    /** `JSON.parse(text)` as a source list, or `None` when it throws. */
    function sources(text: string): Option<seq<MediaSource>> {
      if text in parsedSources then Some(parsedSources[text]) else None
    }
  }

  /** The poster markup: `posters` (when non-empty) wins over `poster`, and a
      `posters` value that does not parse gives no poster at all. */
  function BuildPoster(c: Config, decode: Decoders): (p: Poster)
    ensures p.NoPoster? <==>
      (if c.posters.Some? && c.posters.value != "" then decode.posters(c.posters.value).None?
       else c.poster == "")
    ensures p.Picture? ==> c.posters.Some? && (exists ps ::
              Some(ps) == decode.posters(c.posters.value)
              && p.sources == PictureSources(ps) && p.fallback == PosterFallback(ps))
    ensures p.Image? ==> p.src == c.poster && (c.posters.None? || c.posters.value == "")
    ensures !p.NoPoster? ==> p.alt == c.posterAlt
  {
    if c.posters.Some? && c.posters.value != "" then
      match decode.posters(c.posters.value)
      case None => NoPoster
      case Some(ps) => Picture(PictureSources(ps), PosterFallback(ps), c.posterAlt)
    else if c.poster != "" then Image(c.poster, c.posterAlt)
    else NoPoster
  }

  /** The static part of the shadow tree written by a render. The wrapper's
      `padding-top` and the CSS `aspect-ratio` of the container and of the
      poster image are all derived from the `aspect` text. */
  datatype Shell = Shell(aspect: string, autosize: bool, poster: Poster, playButton: bool)
  {
    function Padding(): nat {
      PaddingTop(aspect)
    }

    function CssRatio(): string {
      CssAspectRatio(aspect)
    }
  }

  function BuildShell(c: Config, decode: Decoders): (s: Shell)
    ensures s.aspect == c.aspectRatio && s.autosize == c.autosize
    ensures s.poster == BuildPoster(c, decode) && s.playButton == c.showPlayButton
  {
    Shell(c.aspectRatio, c.autosize, BuildPoster(c, decode), c.showPlayButton)
  }

  /** `class="video-container hidden"` exactly when there is poster markup. */
  predicate ContainerStartsHidden(s: Shell) {
    !s.poster.NoPoster?
  }

  // ---------------------------------------------------------------------------
  // Activation targets

  datatype Target = PosterTarget | PlayButtonTarget
  datatype DomEvent = Click | KeyDown
  datatype Listener = Listener(target: Target, on: DomEvent)

  /** `querySelectorAll('[role="button"], .play-button')`, in document order:
      the poster (picture or img, both `role="button"`), then the button. */
  function ActivationTargets(s: Shell): (ts: seq<Target>)
    ensures PosterTarget in ts <==> !s.poster.NoPoster?
    ensures PlayButtonTarget in ts <==> s.playButton
  {
    (if s.poster.NoPoster? then [] else [PosterTarget])
    + (if s.playButton then [PlayButtonTarget] else [])
  }

  /** `querySelectorAll('[role="button"]')`: the play button has no role, so
      only a poster element can be a target. */
  function RoleButtonTargets(s: Shell): (ts: seq<Target>)
    ensures PlayButtonTarget !in ts
    ensures PosterTarget in ts <==> !s.poster.NoPoster?
  {
    if s.poster.NoPoster? then [] else [PosterTarget]
  }

  /** The listeners the `forEach` attaches: a click and a keydown listener on
      every target, in order. */
  function ListenersFor(ts: seq<Target>): seq<Listener> {
    if ts == [] then [] else [Listener(ts[0], Click), Listener(ts[0], KeyDown)] + ListenersFor(ts[1..])
  }

  /** Two listeners per target, the click one first, in target order. */
  lemma {:induction false} ListenersForShape(ts: seq<Target>)
    ensures var ls := ListenersFor(ts);
            |ls| == 2 * |ts|
            && forall k :: 0 <= k < |ts| ==> ls[2 * k] == Listener(ts[k], Click) && ls[2 * k + 1] == Listener(ts[k], KeyDown)
  {
    if ts != [] {
      ListenersForShape(ts[1..]);
      var ls := ListenersFor(ts);
      forall k | 0 <= k < |ts|
        ensures ls[2 * k] == Listener(ts[k], Click) && ls[2 * k + 1] == Listener(ts[k], KeyDown)
      {
        if k > 0 {
          assert ls[2 * k] == ListenersFor(ts[1..])[2 * (k - 1)];
          assert ls[2 * k + 1] == ListenersFor(ts[1..])[2 * (k - 1) + 1];
        }
      }
    }
  }

  /** Attaching to one more target adds its click and keydown listeners at the end. */
  lemma {:induction false} ListenersForAppend(ts: seq<Target>, t: Target)
    ensures ListenersFor(ts + [t]) == ListenersFor(ts) + [Listener(t, Click), Listener(t, KeyDown)]
    decreases |ts|
  {
    if ts == [] {
      assert ts + [t] == [t];
    } else {
      assert (ts + [t])[1..] == ts[1..] + [t];
      ListenersForAppend(ts[1..], t);
    }
  }

  // ---------------------------------------------------------------------------
  // Embeds

  /** A `<source src=… type=…>` of the `<video>`. */
  datatype MediaSource = MediaSource(src: string, mime: string)

  datatype Embed =
    | NoEmbed
    | InvalidUrl(backend: PlayerType)
    | Frame(backend: PlayerType, url: string, allowAutoplay: bool, allowFullscreen: bool)
    | VideoTag(autoplay: bool, sources: seq<MediaSource>)

  const YouTubeEmbedBase := "https://www.youtube.com/embed/"
  const VimeoEmbedBase := "https://player.vimeo.com/video/"
  const DefaultVideoType := "video/mp4"

  function YouTubeEmbedUrl(id: string, autoplay: bool): string {
    YouTubeEmbedBase + id + "?enablejsapi=1" + (if autoplay then "&autoplay=1" else "")
  }

  function VimeoEmbedUrl(id: string, autoplay: bool): string {
    VimeoEmbedBase + id + "?" + (if autoplay then "autoplay=1" else "")
  }

  /** The `<source>` children of the `<video>`: the decoded `sources` list in
      order, or, when the attribute is absent or empty, does not decode, or
      decodes to an empty list, the primary `src` as `video/mp4`. */
  function VideoSources(src: string, sources: Option<string>, decode: Decoders): (r: seq<MediaSource>)
    ensures |r| > 0
    ensures r == [MediaSource(src, DefaultVideoType)]
            || (sources.Some? && sources.value != "" && decode.sources(sources.value) == Some(r))
    ensures (sources.None? || sources.value == "" || decode.sources(sources.value).None?
             || decode.sources(sources.value) == Some([]))
            ==> r == [MediaSource(src, DefaultVideoType)]
  {
    var listed :=
      if sources.Some? && sources.value != "" then decode.sources(sources.value).GetOr([]) else [];
    if listed != [] then listed else [MediaSource(src, DefaultVideoType)]
  }

  /** The embed of `_loadVideo` in lib/video-player.ts: an inline error instead
      of an iframe or video when the ID or the `src` is missing. */
  function LoadEmbed(c: Config, autoplay: bool, decode: Decoders): (e: Embed)
    ensures e.InvalidUrl? <==> ScheduledSetup(e).None?
    ensures e.InvalidUrl? ==> e.backend == DetectPlayerType(c.src)
    ensures !e.InvalidUrl? ==> ScheduledSetup(e) == Some(DetectPlayerType(c.src))
  {
    match DetectPlayerType(c.src)
    case YouTube =>
      var id := ExtractYouTubeID(c.src);
      if id == "" then InvalidUrl(YouTube)
      else Frame(YouTube, YouTubeEmbedUrl(id, autoplay), autoplay, c.allowFullscreen)
    case Vimeo =>
      var id := ExtractVimeoID(c.src);
      if id == "" then InvalidUrl(Vimeo)
      else Frame(Vimeo, VimeoEmbedUrl(id, autoplay), autoplay, c.allowFullscreen)
    case SelfHosted =>
      if c.src == "" then InvalidUrl(SelfHosted)
      else VideoTag(autoplay, VideoSources(c.src, c.sources, decode))
  }

  /** The embed of `_loadVideo` in lib/jfm-video-player.ts: no error branch, an
      empty ID or `src` goes into the markup as it is. */
  function JfmLoadEmbed(c: Config, autoplay: bool, decode: Decoders): (e: Embed)
    ensures !e.InvalidUrl? && !e.NoEmbed?
    ensures ScheduledSetup(e) == Some(DetectPlayerType(c.src))
  {
    match DetectPlayerType(c.src)
    case YouTube => Frame(YouTube, YouTubeEmbedUrl(ExtractYouTubeID(c.src), autoplay), autoplay, c.allowFullscreen)
    case Vimeo => Frame(Vimeo, VimeoEmbedUrl(ExtractVimeoID(c.src), autoplay), autoplay, c.allowFullscreen)
    case SelfHosted => VideoTag(autoplay, VideoSources(c.src, c.sources, decode))
  }

  /** The two revisions build the same embed whenever the newer one finds an
      ID (or a `src`); where it shows an error, the earlier one embeds the
      empty ID, or a `<video>` whose fallback source is the empty `src`. */
  lemma JfmLoadEmbedAgrees(c: Config, autoplay: bool, decode: Decoders)
    ensures !LoadEmbed(c, autoplay, decode).InvalidUrl? ==> JfmLoadEmbed(c, autoplay, decode) == LoadEmbed(c, autoplay, decode)
    ensures LoadEmbed(c, autoplay, decode) == InvalidUrl(YouTube) ==>
              JfmLoadEmbed(c, autoplay, decode) == Frame(YouTube, YouTubeEmbedUrl("", autoplay), autoplay, c.allowFullscreen)
    ensures LoadEmbed(c, autoplay, decode) == InvalidUrl(Vimeo) ==>
              JfmLoadEmbed(c, autoplay, decode) == Frame(Vimeo, VimeoEmbedUrl("", autoplay), autoplay, c.allowFullscreen)
    ensures LoadEmbed(c, autoplay, decode) == InvalidUrl(SelfHosted) ==>
              JfmLoadEmbed(c, autoplay, decode) == VideoTag(autoplay, VideoSources("", c.sources, decode))
  {
  }

  /** The setup timers `_loadVideo` starts, as a list of zero or one. */
  function SetupList(e: Embed): (r: seq<PlayerType>)
    ensures |r| <= 1 && (|r| == 1 <==> ScheduledSetup(e).Some?)
    ensures |r| == 1 ==> r[0] == ScheduledSetup(e).value
  {
    match ScheduledSetup(e)
    case Some(t) => [t]
    case None => []
  }

  /** The backend setup that `_loadVideo` schedules 500 ms later, if any. */
  function ScheduledSetup(e: Embed): Option<PlayerType> {
    match e
    case Frame(backend, _, _, _) => Some(backend)
    case VideoTag(_, _) => Some(SelfHosted)
    case _ => None
  }

  /** The three error embeds of lib/video-player.ts, each exactly when its ID
      (or the self-hosted `src`) is empty. */
  lemma LoadEmbedErrors(c: Config, autoplay: bool, decode: Decoders)
    ensures LoadEmbed(c, autoplay, decode) == InvalidUrl(YouTube) <==>
              DetectPlayerType(c.src) == YouTube && ExtractYouTubeID(c.src) == ""
    ensures LoadEmbed(c, autoplay, decode) == InvalidUrl(Vimeo) <==>
              DetectPlayerType(c.src) == Vimeo && ExtractVimeoID(c.src) == ""
    ensures LoadEmbed(c, autoplay, decode) == InvalidUrl(SelfHosted) <==>
              DetectPlayerType(c.src) == SelfHosted && c.src == ""
  {
  }

  /** With an ID the embed is the iframe or video the `src` calls for, and only
      the `autoplay` flag distinguishes eager from activated loads. */
  lemma LoadEmbedFrames(c: Config, autoplay: bool, decode: Decoders)
    ensures var e := LoadEmbed(c, autoplay, decode);
            (e.Frame? ==> e.allowAutoplay == autoplay && e.allowFullscreen == c.allowFullscreen)
            && (e.VideoTag? ==> e.autoplay == autoplay && e.sources == VideoSources(c.src, c.sources, decode))
    ensures var id := ExtractYouTubeID(c.src);
            DetectPlayerType(c.src) == YouTube && id != "" ==>
              LoadEmbed(c, autoplay, decode).url == YouTubeEmbedUrl(id, autoplay)
    ensures var id := ExtractVimeoID(c.src);
            DetectPlayerType(c.src) == Vimeo && id != "" ==>
              LoadEmbed(c, autoplay, decode).url == VimeoEmbedUrl(id, autoplay)
  {
  }

  /** The YouTube embed URL round-trips: it is itself a YouTube URL, from which
      the same ID is extracted. */
  lemma YouTubeEmbedUrlRoundTrip(id: string, autoplay: bool)
    requires IsYouTubeId(id)
    ensures ExtractYouTubeID(YouTubeEmbedUrl(id, autoplay)) == id
    ensures DetectPlayerType(YouTubeEmbedUrl(id, autoplay)) == YouTube
  {
    var url := YouTubeEmbedUrl(id, autoplay);
    var rest := "?enablejsapi=1" + (if autoplay then "&autoplay=1" else "");
    assert url == "https://www." + "youtube.com/embed/" + id + rest;
    ExtractYouTubeIDOfUrl("https://www.", "youtube.com/embed/", id, rest);
    YouTubeIdNeedsPattern(url);
  }

  /** `&autoplay=1` is in the YouTube embed URL exactly when the load asked for
      autoplay: an ID never holds `&`. */
  lemma YouTubeEmbedUrlAutoplay(id: string, autoplay: bool)
    requires IsYouTubeId(id)
    ensures Contains(YouTubeEmbedUrl(id, autoplay), "&autoplay=1") <==> autoplay
  {
    var url := YouTubeEmbedUrl(id, autoplay);
    if autoplay {
      assert OccursAt(url, "&autoplay=1", |url| - 11);
      ContainsAt(url, "&autoplay=1", |url| - 11);
    } else {
      assert '&' !in id by {
        forall k | 0 <= k < |id| ensures id[k] != '&' { assert IsYouTubeIdChar(id[k]); }
      }
      assert '&' !in YouTubeEmbedBase && '&' !in "?enablejsapi=1";
      assert url == YouTubeEmbedBase + id + "?enablejsapi=1";
      NotContainsWithout(url, "&autoplay=1", 0);
    }
  }

  /** The Vimeo embed URL round-trips its digits back to the same ID. */
  lemma VimeoEmbedUrlRoundTrip(id: string, autoplay: bool)
    requires |id| > 0 && AllDigits(id)
    ensures ExtractVimeoID(VimeoEmbedUrl(id, autoplay)) == id
    ensures DetectPlayerType(VimeoEmbedUrl(id, autoplay)) == Vimeo
  {
    var url := VimeoEmbedUrl(id, autoplay);
    var rest := "?" + (if autoplay then "autoplay=1" else "");
    assert url == "https://player." + "vimeo.com/" + "video/" + id + rest;
    ExtractVimeoIDOfUrl("https://player.", true, id, rest);
    VimeoIdNeedsPattern(url);
    VimeoEmbedUrlNotYouTube(id, autoplay);
  }

  lemma VimeoEmbedUrlNotYouTube(id: string, autoplay: bool)
    requires AllDigits(id)
    ensures !IsYouTubeUrl(VimeoEmbedUrl(id, autoplay))
  {
    var url := VimeoEmbedUrl(id, autoplay);
    var rest := "?" + (if autoplay then "autoplay=1" else "");
    assert 'b' !in id by {
      forall k | 0 <= k < |id| ensures id[k] != 'b' { assert IsDigit(id[k]); }
    }
    assert 'b' !in VimeoEmbedBase && 'b' !in rest;
    assert url == VimeoEmbedBase + id + rest;
    NotContainsWithout(url, "youtube.com", 5);
    NotContainsWithout(url, "youtu.be", 6);
  }

  /** `autoplay=1` is in the Vimeo embed URL exactly when the load asked for
      autoplay: a digit ID never holds `=`. */
  lemma VimeoEmbedUrlAutoplay(id: string, autoplay: bool)
    requires AllDigits(id)
    ensures Contains(VimeoEmbedUrl(id, autoplay), "autoplay=1") <==> autoplay
  {
    var url := VimeoEmbedUrl(id, autoplay);
    if autoplay {
      assert OccursAt(url, "autoplay=1", |url| - 10);
      ContainsAt(url, "autoplay=1", |url| - 10);
    } else {
      assert '=' !in id by {
        forall k | 0 <= k < |id| ensures id[k] != '=' { assert IsDigit(id[k]); }
      }
      assert '=' !in VimeoEmbedBase && '=' !in "?";
      assert url == VimeoEmbedBase + id + "?";
      NotContainsWithout(url, "autoplay=1", 8);
    }
  }
}
