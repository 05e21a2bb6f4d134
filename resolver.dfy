/** The source-type resolver: which backend a `src` URL belongs to, and the
    backend identifier that the embed URL needs. Everything here is lexical. */
module Resolver {
  import opened Text
  import opened Wrappers

  datatype PlayerType = SelfHosted | YouTube | Vimeo

  /** `/youtube\.com|youtu\.be/.test(src)` */
  predicate IsYouTubeUrl(src: string) {
    Contains(src, "youtube.com") || Contains(src, "youtu.be")
  }

  /** `/vimeo\.com/.test(src)` */
  predicate IsVimeoUrl(src: string) {
    Contains(src, "vimeo.com")
  }

  /** `_detectPlayerType`: the YouTube patterns are tried first, then Vimeo's. */
  function DetectPlayerType(src: string): (t: PlayerType)
    ensures t == YouTube <==> IsYouTubeUrl(src)
    ensures t == Vimeo <==> !IsYouTubeUrl(src) && IsVimeoUrl(src)
    ensures t == SelfHosted <==> !IsYouTubeUrl(src) && !IsVimeoUrl(src)
  {
    if IsYouTubeUrl(src) then YouTube
    else if IsVimeoUrl(src) then Vimeo
    else SelfHosted
  }

  // ---------------------------------------------------------------------------
  // Leftmost matching

  /** The two patterns the element matches against a URL. */
  datatype Pattern = YouTubePattern | VimeoPattern

  /** The capture group of a match of `pat` starting at position `j` of `s`. */
  function CaptureAt(pat: Pattern, s: string, j: nat): Option<string> {
    match pat
    case YouTubePattern => YouTubeCaptureAt(s, j)
    case VimeoPattern => VimeoCaptureAt(s, j)
  }

  /** The regex engine tries the start positions `i`, `i + 1`, ..., `|s|` in
      turn and stops at the first where the pattern matches. The empty string
      stands for no match. */
  function FirstCapture(pat: Pattern, s: string, i: nat): string
    requires i <= |s|
    decreases |s| - i
  {
    match CaptureAt(pat, s, i)
    case Some(c) => c
    case None => if i == |s| then "" else FirstCapture(pat, s, i + 1)
  }

  lemma {:induction false} FirstCaptureLeftmost(pat: Pattern, s: string, i: nat)
    requires i <= |s|
    requires forall j :: i <= j <= |s| && CaptureAt(pat, s, j).Some? ==> CaptureAt(pat, s, j).value != ""
    ensures FirstCapture(pat, s, i) == "" <==> forall j :: i <= j <= |s| ==> CaptureAt(pat, s, j).None?
    ensures FirstCapture(pat, s, i) != "" ==>
      exists j :: i <= j <= |s| && CaptureAt(pat, s, j) == Some(FirstCapture(pat, s, i))
               && forall l :: i <= l < j ==> CaptureAt(pat, s, l).None?
    decreases |s| - i
  {
    if CaptureAt(pat, s, i).None? && i < |s| {
      FirstCaptureLeftmost(pat, s, i + 1);
      var r := FirstCapture(pat, s, i);
      if r != "" {
        var j :| i + 1 <= j <= |s| && CaptureAt(pat, s, j) == Some(r)
                 && forall l :: i + 1 <= l < j ==> CaptureAt(pat, s, l).None?;
        assert forall l :: i <= l < j ==> CaptureAt(pat, s, l).None?;
      }
    }
  }

  /** When nothing matches before `k` and the pattern matches at `k`, the
      result is the capture at `k`. */
  lemma {:induction false} FirstCaptureAt(pat: Pattern, s: string, i: nat, k: nat)
    requires i <= k <= |s| && CaptureAt(pat, s, k).Some?
    requires forall l :: i <= l < k ==> CaptureAt(pat, s, l).None?
    ensures FirstCapture(pat, s, i) == CaptureAt(pat, s, k).value
    decreases k - i
  {
    if i < k {
      FirstCaptureAt(pat, s, i + 1, k);
    }
  }

  // ---------------------------------------------------------------------------
  // YouTube: /(?:youtube\.com\/(?:shorts\/|watch\?v=|embed\/)|youtu\.be\/)([^"&?\/\s]{11})/

  /** The alternatives of the non-capturing group, in the order the regex tries them. */
  const YouTubePrefixes: seq<string> :=
    ["youtube.com/shorts/", "youtube.com/watch?v=", "youtube.com/embed/", "youtu.be/"]

  const YouTubeIdLength: nat := 11

  /** `[^"&?\/\s]` */
  predicate IsYouTubeIdChar(c: char) {
    c != '"' && c != '&' && c != '?' && c != '/' && !IsJsSpace(c)
  }

  predicate IsYouTubeId(id: string) {
    |id| == YouTubeIdLength && forall k :: 0 <= k < |id| ==> IsYouTubeIdChar(id[k])
  }

  /** The capture when the match is attempted at `i` through the alternative `p`. */
  function IdAfter(s: string, i: nat, p: string): (r: Option<string>)
    ensures r.Some? ==> IsYouTubeId(r.value) && OccursAt(s, p, i)
  {
    var j := i + |p|;
    if OccursAt(s, p, i) && j + YouTubeIdLength <= |s| && IsYouTubeId(s[j..j + YouTubeIdLength])
    then Some(s[j..j + YouTubeIdLength])
    else None
  }

  /** The YouTube pattern matched with its leftmost character at `i`: the
      alternatives are tried in order, and backtracking moves to the next one
      when the eleven ID characters do not follow. */
  function YouTubeCaptureAt(s: string, i: nat): (r: Option<string>)
    ensures r.Some? ==> IsYouTubeId(r.value)
  {
    var ps := YouTubePrefixes;
    if IdAfter(s, i, ps[0]).Some? then IdAfter(s, i, ps[0])
    else if IdAfter(s, i, ps[1]).Some? then IdAfter(s, i, ps[1])
    else if IdAfter(s, i, ps[2]).Some? then IdAfter(s, i, ps[2])
    else IdAfter(s, i, ps[3])
  }

  /** `_extractYouTubeID`: the first capture group of the leftmost match, or `""`. */
  function ExtractYouTubeID(url: string): string {
    FirstCapture(YouTubePattern, url, 0)
  }

  /** The result is empty exactly when the pattern matches nowhere, and
      otherwise it is the capture of the match that starts furthest left. */
  lemma ExtractYouTubeIDLeftmost(url: string)
    ensures ExtractYouTubeID(url) == "" <==> forall j :: 0 <= j <= |url| ==> YouTubeCaptureAt(url, j).None?
    ensures ExtractYouTubeID(url) != "" ==>
      exists j :: 0 <= j <= |url| && YouTubeCaptureAt(url, j) == Some(ExtractYouTubeID(url))
               && forall l :: 0 <= l < j ==> YouTubeCaptureAt(url, l).None?
  {
    assert forall j :: CaptureAt(YouTubePattern, url, j) == YouTubeCaptureAt(url, j);
    FirstCaptureLeftmost(YouTubePattern, url, 0);
  }

  /** The result is `""` or exactly eleven characters, none of them a quote,
      `&`, `?`, `/` or white space. */
  lemma ExtractYouTubeIDShape(url: string)
    ensures ExtractYouTubeID(url) == "" || IsYouTubeId(ExtractYouTubeID(url))
  {
    ExtractYouTubeIDLeftmost(url);
  }

  /** No alternative matches where `s` has no `y`. */
  lemma NoYouTubeCaptureWithoutY(s: string, i: nat)
    requires i < |s| && s[i] != 'y'
    ensures YouTubeCaptureAt(s, i).None?
  {
    forall p | p in YouTubePrefixes ensures !OccursAt(s, p, i) {
      assert p[0] == 'y';
    }
  }

  /** Each alternative of the prefix group, followed by a valid ID, yields that
      ID, whatever precedes it (as long as it holds no `y`, as in `https://www.`
      or `https://m.`) and whatever follows. */
  lemma ExtractYouTubeIDOfUrl(pre: string, p: string, id: string, rest: string)
    requires p in YouTubePrefixes && IsYouTubeId(id) && 'y' !in pre
    ensures ExtractYouTubeID(pre + p + id + rest) == id
  {
    var s := pre + p + id + rest;
    var i := |pre|;
    forall l | 0 <= l < i ensures YouTubeCaptureAt(s, l).None? {
      assert s[l] == pre[l];
      NoYouTubeCaptureWithoutY(s, l);
    }
    assert s[i..i + |p|] == p;
    assert s[i + |p|..i + |p| + YouTubeIdLength] == id;
    assert IdAfter(s, i, p) == Some(id);
    PrefixAloneAt(s, i, p);
    FirstCaptureAt(YouTubePattern, s, 0, i);
  }

  /** At one position at most one alternative of the group can occur, so the
      capture there is the one through the alternative that occurs. */
  lemma PrefixAloneAt(s: string, i: nat, p: string)
    requires p in YouTubePrefixes && OccursAt(s, p, i)
    ensures YouTubeCaptureAt(s, i) == IdAfter(s, i, p)
  {
    forall q | q in YouTubePrefixes && q != p ensures !OccursAt(s, q, i) {
      var n := if p[5] != q[5] then 5 else 12;
      assert p[n] != q[n];
      assert s[i..i + |p|][n] == s[i + n];
    }
  }

  // ---------------------------------------------------------------------------
  // Vimeo: /vimeo\.com\/(?:video\/)?(\d+)/

  /** Length of the run of digits that starts at `k` (`\d+` is greedy). */
  function DigitRun(s: string, k: nat): (n: nat)
    requires k <= |s|
    ensures k + n <= |s| && AllDigits(s[k..k + n])
    ensures k + n == |s| || !IsDigit(s[k + n])
    decreases |s| - k
  {
    if k < |s| && IsDigit(s[k]) then
      var n := DigitRun(s, k + 1);
      assert s[k..k + 1 + n] == [s[k]] + s[k + 1..k + 1 + n];
      1 + n
    else 0
  }

  /** The capture of the digits at `k`, if there is at least one. */
  function DigitsAt(s: string, k: nat): Option<string>
    requires k <= |s|
  {
    var n := DigitRun(s, k);
    if n > 0 then Some(s[k..k + n]) else None
  }

  /** The Vimeo pattern matches with its leftmost character at `i`. The optional
      `video/` is tried first; when no digit follows it the regex backtracks
      and tries the digits right after `vimeo.com/`. */
  function VimeoCaptureAt(s: string, i: nat): (r: Option<string>)
    ensures r.Some? ==> |r.value| > 0 && AllDigits(r.value)
    ensures r.Some? ==> OccursAt(s, "vimeo.com/", i)
  {
    if !OccursAt(s, "vimeo.com/", i) then None
    else
      var j := i + 10;
      if OccursAt(s, "video/", j) && DigitsAt(s, j + 6).Some? then DigitsAt(s, j + 6)
      else DigitsAt(s, j)
  }

  /** `_extractVimeoID`: the digits of the leftmost match, or `""`. */
  function ExtractVimeoID(url: string): string {
    FirstCapture(VimeoPattern, url, 0)
  }

  lemma ExtractVimeoIDLeftmost(url: string)
    ensures ExtractVimeoID(url) == "" <==> forall j :: 0 <= j <= |url| ==> VimeoCaptureAt(url, j).None?
    ensures ExtractVimeoID(url) != "" ==>
      exists j :: 0 <= j <= |url| && VimeoCaptureAt(url, j) == Some(ExtractVimeoID(url))
               && forall l :: 0 <= l < j ==> VimeoCaptureAt(url, l).None?
  {
    assert forall j :: CaptureAt(VimeoPattern, url, j) == VimeoCaptureAt(url, j);
    FirstCaptureLeftmost(VimeoPattern, url, 0);
  }

  /** The result is `""` or a non-empty run of digits. */
  lemma ExtractVimeoIDShape(url: string)
    ensures ExtractVimeoID(url) == "" || (|ExtractVimeoID(url)| > 0 && AllDigits(ExtractVimeoID(url)))
  {
    ExtractVimeoIDLeftmost(url);
  }

  /** `vimeo.com/<digits>` and `vimeo.com/video/<digits>` yield the digits,
      after any text without a `v` (`https://`, `https://player.`) and before
      any text that does not start with a digit (`""`, `?h=…`, `/`). */
  lemma ExtractVimeoIDOfUrl(pre: string, withVideo: bool, digits: string, rest: string)
    requires 'v' !in pre && |digits| > 0 && AllDigits(digits)
    requires rest == [] || !IsDigit(rest[0])
    ensures ExtractVimeoID(pre + "vimeo.com/" + (if withVideo then "video/" else "") + digits + rest) == digits
  {
    var s := pre + "vimeo.com/" + (if withVideo then "video/" else "") + digits + rest;
    forall l | 0 <= l < |pre| ensures VimeoCaptureAt(s, l).None? {
      assert s[l] == pre[l];
    }
    VimeoCaptureOfUrl(pre, withVideo, digits, rest);
    FirstCaptureAt(VimeoPattern, s, 0, |pre|);
  }

  lemma VimeoCaptureOfUrl(pre: string, withVideo: bool, digits: string, rest: string)
    requires |digits| > 0 && AllDigits(digits)
    requires rest == [] || !IsDigit(rest[0])
    ensures VimeoCaptureAt(pre + "vimeo.com/" + (if withVideo then "video/" else "") + digits + rest, |pre|)
            == Some(digits)
  {
    var mid := if withVideo then "video/" else "";
    var s := pre + "vimeo.com/" + mid + digits + rest;
    assert s[|pre|..] == "vimeo.com/" + mid + digits + rest;
    VimeoCaptureOfTail(s, |pre|, mid, digits, rest);
  }

  /** The capture at `i` when `s` continues at `i` with `vimeo.com/`, then
      `video/` or nothing, then the digits. */
  lemma VimeoCaptureOfTail(s: string, i: nat, mid: string, digits: string, rest: string)
    requires mid == "video/" || mid == ""
    requires |digits| > 0 && AllDigits(digits)
    requires rest == [] || !IsDigit(rest[0])
    requires i <= |s| && s[i..] == "vimeo.com/" + mid + digits + rest
    ensures VimeoCaptureAt(s, i) == Some(digits)
  {
    assert "vimeo.com/" + mid + digits + rest == "vimeo.com/" + (mid + digits + rest);
    SuffixAt(s, i, "vimeo.com/", mid + digits + rest);
    var j := i + 10;
    if mid == "" {
      assert s[j..] == digits + rest;
      DigitsAtOf(s, j, digits, rest);
      assert s[j] == digits[0];
      assert !OccursAt(s, "video/", j);
    } else {
      assert mid + digits + rest == "video/" + (digits + rest);
      SuffixAt(s, j, "video/", digits + rest);
      DigitsAtOf(s, j + 6, digits, rest);
    }
  }

  /** `s` continues at `i` with `t` and then `u`. */
  lemma SuffixAt(s: string, i: nat, t: string, u: string)
    requires i <= |s| && s[i..] == t + u
    ensures OccursAt(s, t, i) && s[i + |t|..] == u
  {
    assert s[i..i + |t|] == (t + u)[..|t|];
    assert s[i + |t|..] == (t + u)[|t|..];
  }

  /** The digit run at `k` is exactly `digits` when a non-digit or the end follows them. */
  lemma DigitsAtOf(s: string, k: nat, digits: string, rest: string)
    requires k <= |s| && s[k..] == digits + rest
    requires |digits| > 0 && AllDigits(digits) && (rest == [] || !IsDigit(rest[0]))
    ensures DigitsAt(s, k) == Some(digits)
  {
    DigitRunOf(s, k, digits, rest);
    assert s[k..k + |digits|] == (digits + rest)[..|digits|];
  }

  lemma {:induction false} DigitRunOf(s: string, k: nat, digits: string, rest: string)
    requires k <= |s| && s[k..] == digits + rest
    requires AllDigits(digits) && (rest == [] || !IsDigit(rest[0]))
    ensures DigitRun(s, k) == |digits|
    decreases |digits|
  {
    if |digits| == 0 {
      assert s[k..] == rest;
      if k < |s| {
        assert s[k] == rest[0];
      }
    } else {
      assert s[k] == digits[0];
      assert s[k + 1..] == digits[1..] + rest;
      DigitRunOf(s, k + 1, digits[1..], rest);
    }
  }

  // ---------------------------------------------------------------------------
  // Detection and extraction agree

  lemma OccursAtHead(s: string, t: string, u: string, i: nat)
    requires OccursAt(s, t + u, i)
    ensures OccursAt(s, t, i)
  {
    assert s[i..i + |t|] == s[i..i + |t + u|][..|t|];
  }

  lemma YouTubeIdNeedsPattern(url: string)
    ensures ExtractYouTubeID(url) != "" ==> IsYouTubeUrl(url)
  {
    if ExtractYouTubeID(url) != "" {
      ExtractYouTubeIDLeftmost(url);
      var j :| 0 <= j <= |url| && YouTubeCaptureAt(url, j) == Some(ExtractYouTubeID(url));
      YouTubeCaptureHasDomain(url, j);
    }
  }

  lemma YouTubeCaptureHasDomain(url: string, j: nat)
    requires YouTubeCaptureAt(url, j).Some?
    ensures OccursAt(url, "youtube.com", j) || OccursAt(url, "youtu.be", j)
    ensures IsYouTubeUrl(url)
  {
    var ps := YouTubePrefixes;
    if IdAfter(url, j, ps[0]).Some? {
      PrefixHasDomain(url, j, "youtube.com", "/shorts/");
    } else if IdAfter(url, j, ps[1]).Some? {
      PrefixHasDomain(url, j, "youtube.com", "/watch?v=");
    } else if IdAfter(url, j, ps[2]).Some? {
      PrefixHasDomain(url, j, "youtube.com", "/embed/");
    } else {
      PrefixHasDomain(url, j, "youtu.be", "/");
    }
  }

  /** A match of an alternative at `j` puts its domain at `j`. */
  lemma PrefixHasDomain(url: string, j: nat, domain: string, path: string)
    requires OccursAt(url, domain + path, j)
    ensures OccursAt(url, domain, j) && Contains(url, domain)
  {
    OccursAtHead(url, domain, path, j);
    ContainsAt(url, domain, j);
  }

  lemma VimeoIdNeedsPattern(url: string)
    ensures ExtractVimeoID(url) != "" ==> IsVimeoUrl(url)
  {
    if ExtractVimeoID(url) != "" {
      ExtractVimeoIDLeftmost(url);
      var j :| 0 <= j <= |url| && VimeoCaptureAt(url, j) == Some(ExtractVimeoID(url));
      assert "vimeo.com/" == "vimeo.com" + "/";
      OccursAtHead(url, "vimeo.com", "/", j);
      ContainsAt(url, "vimeo.com", j);
    }
  }

  /** A YouTube ID is found only in a URL classified as YouTube, and a Vimeo ID
      only in one classified as Vimeo or, when it also has a YouTube pattern, as
      YouTube. So a URL classified as self-hosted yields no ID at all. */
  lemma ExtractedIdMatchesType(url: string)
    ensures ExtractYouTubeID(url) != "" ==> DetectPlayerType(url) == YouTube
    ensures ExtractVimeoID(url) != "" ==> DetectPlayerType(url) != SelfHosted
    ensures DetectPlayerType(url) == SelfHosted ==> ExtractYouTubeID(url) == "" && ExtractVimeoID(url) == ""
  {
    YouTubeIdNeedsPattern(url);
    VimeoIdNeedsPattern(url);
  }
}
