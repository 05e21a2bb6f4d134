/** The parts of the page the element reads and writes outside its shadow
    root: the `<script>` tags of the document and the `window.YT` and
    `window.Vimeo` globals that the API scripts define once loaded. */
module Page {
  const YouTubeApiUrl := "https://www.youtube.com/iframe_api"
  const VimeoApiUrl := "https://player.vimeo.com/api/player.js"

  datatype Api = YouTubeApi | VimeoApi

  function ApiUrl(api: Api): string {
    match api
    case YouTubeApi => YouTubeApiUrl
    case VimeoApi => VimeoApiUrl
  }

  /** The script list after the probe of `_render`: the tag is appended only
      when the API global is missing and no script with exactly that `src`
      is in the document. */
  function InjectScript(scripts: seq<string>, apiPresent: bool, url: string): (r: seq<string>)
    ensures r == scripts || r == scripts + [url]
    ensures r != scripts <==> !apiPresent && url !in scripts
  {
    if !apiPresent && url !in scripts then scripts + [url] else scripts
  }

  /** Injection never makes a second tag for the same API, and once the tag
      or the global is there it never adds one. */
  lemma InjectKeepsAtMostOne(scripts: seq<string>, apiPresent: bool, url: string)
    requires multiset(scripts)[url] <= 1
    ensures multiset(InjectScript(scripts, apiPresent, url))[url] <= 1
    ensures !apiPresent ==> multiset(InjectScript(scripts, apiPresent, url))[url] == 1
  {
  }

  /** A second render with the same probe result adds nothing. */
  lemma InjectIdempotent(scripts: seq<string>, apiPresent: bool, url: string)
    ensures InjectScript(InjectScript(scripts, apiPresent, url), apiPresent, url)
            == InjectScript(scripts, apiPresent, url)
  {
  }

  /** Other scripts are left as they were. */
  lemma InjectLeavesOthers(scripts: seq<string>, apiPresent: bool, url: string, other: string)
    requires other != url
    ensures multiset(InjectScript(scripts, apiPresent, url))[other] == multiset(scripts)[other]
  {
  }

  /** The document and window of the page: shared by every element on it. */
  class Document {
    /** The `src` of every `<script>` of the document, in order. */
    var scripts: seq<string>
    /** `window.YT`: the API script defines it before its player widget has
        loaded. */
    var ytGlobal: bool
    /** `window.YT.Player`, once the widget has loaded. */
    var ytPlayer: bool
    /** `window.Vimeo` */
    var vimeoApi: bool

    constructor(scripts: seq<string>, ytGlobal: bool, ytPlayer: bool, vimeoApi: bool)
      ensures this.scripts == scripts && this.ytGlobal == ytGlobal && this.ytPlayer == ytPlayer
      ensures this.vimeoApi == vimeoApi
    {
      this.scripts := scripts;
      this.ytGlobal := ytGlobal;
      this.ytPlayer := ytPlayer;
      this.vimeoApi := vimeoApi;
    }

    /** The global the probe of `_render` tests: `window.YT` alone for
        YouTube, `window.Vimeo` for Vimeo. */
    predicate ApiPresent(api: Api)
      reads this
    {
      match api
      case YouTubeApi => ytGlobal
      case VimeoApi => vimeoApi
    }

    /** `window.YT && window.YT.Player`: what `_setupYouTubePlayer` tests
        before it constructs a player. */
    predicate YouTubeConstructible()
      reads this
    {
      ytGlobal && ytPlayer
    }

    /** The probe-and-append of `_render` for one API. */
    method InjectApiScript(api: Api)
      modifies this
      ensures scripts == InjectScript(old(scripts), old(ApiPresent(api)), ApiUrl(api))
      ensures ytGlobal == old(ytGlobal) && ytPlayer == old(ytPlayer) && vimeoApi == old(vimeoApi)
    {
      scripts := InjectScript(scripts, ApiPresent(api), ApiUrl(api));
    }

    /** The YouTube API script ran: `window.YT` exists, its `Player` not yet. */
    method YouTubeGlobalDefined()
      modifies this
      ensures ytGlobal && ytPlayer == old(ytPlayer) && vimeoApi == old(vimeoApi) && scripts == old(scripts)
    {
      ytGlobal := true;
    }

    /** An API finished loading: its global, and for YouTube the player
        constructor, are defined. */
    method ApiLoaded(api: Api)
      modifies this
      ensures ApiPresent(api) && scripts == old(scripts)
      ensures api == YouTubeApi ==> YouTubeConstructible() && vimeoApi == old(vimeoApi)
      ensures api == VimeoApi ==> ytGlobal == old(ytGlobal) && ytPlayer == old(ytPlayer)
    {
      match api
      case YouTubeApi => ytGlobal, ytPlayer := true, true;
      case VimeoApi => vimeoApi := true;
    }
  }
}
