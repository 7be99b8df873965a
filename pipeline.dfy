/** The control flow of `main` in main.py: the start-up checks that may end
    the program before a browser is launched, and the chain of stages after
    the page is open, each of which runs only when the previous one produced
    something. Launching the browser and opening the page are not modelled. */
module Pipeline {
  import opened Text
  import opened Paths
  import opened Capture
  import opened Extraction
  import opened TextReduce
  import opened BrowserProfile
  import opened WordCloud

  const DefaultTargetUrl: string := "https://www.baidu.com"
  const BilibiliDomain: string := "bilibili.com"

  /** How the start-up checks end: an unsupported browser name, no usable
      profile directory, the `KeyError` of a missing home variable (not
      caught), or everything needed to launch the browser. */
  datatype Startup =
    | Unsupported(browserType: string)
    | NoProfile(browserType: string)
    | MissingVariable(name: string)
    | Ready(browserType: string, userDataDir: string, targetUrl: string)

  /** `os.getenv('TARGET_URL', 'https://www.baidu.com')`. */
  function TargetUrl(environ: map<string, string>): string {
    if "TARGET_URL" in environ then environ["TARGET_URL"] else DefaultTargetUrl
  }

  /** The checks at the top of `main`; `pathExists` stands for `os.path.exists`. */
  function Start(environ: map<string, string>, h: Host, pathExists: string -> bool): Startup {
    var b := BrowserType(environ);
    if b !in SupportedBrowsers then Unsupported(b)
    else match GetUserBrowserPath(b, h, environ)
      case MissingVar(v) => MissingVariable(v)
      case NoPath => NoProfile(b)
      case Found(d) => if d == "" || !pathExists(d) then NoProfile(b) else Ready(b, d, TargetUrl(environ))
  }

  /** The start-up checks: the program goes on exactly with a supported
      browser whose profile directory is known and exists, and stops on each
      of the other conditions. */
  lemma StartupOutcomes(environ: map<string, string>, h: Host, pathExists: string -> bool)
    ensures Start(environ, h, pathExists).Unsupported? <==> BrowserType(environ) !in SupportedBrowsers
    ensures Start(environ, h, pathExists).MissingVariable? <==>
              BrowserType(environ) in SupportedBrowsers && (h.osName == "nt" || h.osName == "posix") &&
              HomeVar(h.osName) !in environ
    ensures Start(environ, h, pathExists).Ready? ==>
              var s := Start(environ, h, pathExists);
              && s.browserType == BrowserType(environ) && s.browserType in SupportedBrowsers
              && GetUserBrowserPath(s.browserType, h, environ) == Found(s.userDataDir)
              && s.userDataDir != "" && pathExists(s.userDataDir)
              && s.targetUrl == TargetUrl(environ)
    ensures BrowserType(environ) in SupportedBrowsers && GetUserBrowserPath(BrowserType(environ), h, environ).Found? ==>
              var d := GetUserBrowserPath(BrowserType(environ), h, environ).path;
              (Start(environ, h, pathExists).Ready? <==> pathExists(d))
  {
    LookupOutcomes(BrowserType(environ), h, environ);
    if BrowserType(environ) in SupportedBrowsers && GetUserBrowserPath(BrowserType(environ), h, environ).Found? {
      var b := BrowserType(environ);
      var d := GetUserBrowserPath(b, h, environ).path;
      FoundPathNotEmpty(b, h, environ);
    }
  }

  /** With nothing configured, a Linux host whose Chromium profile exists starts
      with Chromium, that profile and the default target page. */
  lemma DefaultStartup(environ: map<string, string>, pathExists: string -> bool)
    requires "BROWSER_TYPE" !in environ && "TARGET_URL" !in environ && "HOME" in environ
    requires pathExists(JoinPath(Posix, environ["HOME"], [".config", "google-chrome"]))
    ensures Start(environ, Host("posix", "linux"), pathExists) ==
              Ready("chromium", JoinPath(Posix, environ["HOME"], [".config", "google-chrome"]), DefaultTargetUrl)
  {
    var h := Host("posix", "linux");
    var d := JoinPath(Posix, environ["HOME"], [".config", "google-chrome"]);
    BrowserChoice(environ);
    assert BrowserType(environ) == "chromium";
    assert "darwin"[0] == 'd';
    MissingCharNotContained("linux", "darwin", 'd');
    assert !IsMac(h);
    assert GetUserBrowserPath("chromium", h, environ) == Found(d);
    FoundPathNotEmpty("chromium", h, environ);
    assert d != "";
  }

  /** What the stages depend on besides the target page: the responses that
      arrive during each scroll, the JSON decoder, the tag fetch, the
      segmenter, the character classes, and where and whether the picture is
      written. */
  datatype World = World(
    batches: nat -> seq<Response>,
    parse: string -> Payload,
    fetch: Json -> Option<seq<string>>,
    segment: string -> seq<string>,
    cc: CharClasses,
    pictureDir: string,
    timestamp: string,
    flavour: Flavour,
    rendered: bool)

  /** How the run after opening the page ends. `Raised` is an exception from
      the tag fetch, caught by the handler around the browser session at
      main.py:260, whose fallback opens the page again and stops. */
  datatype Outcome = NotBilibili | NoResponses | NoText | NoTokens | CloudFailed | CloudSaved(path: string) | Raised

  /** The responses `start_capture` returns on a fresh capture object. */
  function Captured(w: World): seq<string> {
    RunFrom([], w.batches, 0).0
  }

  /** The stage chain of `main` once the page is open. */
  function Stages(targetUrl: string, w: World): Outcome {
    if !Contains(targetUrl, BilibiliDomain) then NotBilibili
    else
      var captured := Captured(w);
      if captured == [] then NoResponses
      else match Extracted(captured, w.parse, w.fetch)
        case None => Raised
        case Some(text) =>
          if Strip(text, w.cc.isSpace) == "" then NoText
          else
            var processed := Reduce(w.segment(text), w.cc);
            if Strip(processed, w.cc.isSpace) == "" then NoTokens
            else match GenerateWordcloud(processed, None, w.pictureDir, w.timestamp, w.flavour, w.rendered, w.cc.isSpace)
              case None => CloudFailed
              case Some(p) => CloudSaved(p)
  }

  /** Each stage runs exactly when every earlier one produced something:
      capture only on a Bilibili page, extraction only with captured
      responses, preprocessing only for text with a non-space character and
      the word cloud only when some token was retained. A saved picture is
      `<pictureDir>/user_wordcloud_<timestamp>.png`. */
  lemma StageOutcomes(targetUrl: string, w: World)
    requires w.cc.isSpace(' ')
    ensures Stages(targetUrl, w) == NotBilibili <==> !Contains(targetUrl, BilibiliDomain)
    ensures Stages(targetUrl, w) == NoResponses <==> Contains(targetUrl, BilibiliDomain) && Captured(w) == []
    ensures Stages(targetUrl, w) == Raised <==>
              Contains(targetUrl, BilibiliDomain) && Captured(w) != [] && Extracted(Captured(w), w.parse, w.fetch).None?
    ensures Stages(targetUrl, w) == NoText <==>
              Contains(targetUrl, BilibiliDomain) && Captured(w) != [] &&
              Extracted(Captured(w), w.parse, w.fetch).Some? &&
              IsBlank(Extracted(Captured(w), w.parse, w.fetch).value, w.cc.isSpace)
    ensures Stages(targetUrl, w) == NoTokens <==>
              Contains(targetUrl, BilibiliDomain) && Captured(w) != [] &&
              Extracted(Captured(w), w.parse, w.fetch).Some? &&
              var text := Extracted(Captured(w), w.parse, w.fetch).value;
              !IsBlank(text, w.cc.isSpace) && Retained(Filtered(w.segment(text), w.cc)) == []
    ensures Stages(targetUrl, w).CloudSaved? ==>
              && Contains(targetUrl, BilibiliDomain) && Captured(w) != []
              && Extracted(Captured(w), w.parse, w.fetch).Some?
              && var text := Extracted(Captured(w), w.parse, w.fetch).value;
              && !IsBlank(text, w.cc.isSpace) && Retained(Filtered(w.segment(text), w.cc)) != []
              && w.rendered
              && Stages(targetUrl, w).path == JoinPath(w.flavour, w.pictureDir, [DefaultPrefix + w.timestamp + PngSuffix])
              && EndsWith(Stages(targetUrl, w).path, PngSuffix)
  {
    if Contains(targetUrl, BilibiliDomain) && Captured(w) != [] && Extracted(Captured(w), w.parse, w.fetch).Some? {
      var text := Extracted(Captured(w), w.parse, w.fetch).value;
      StripShape(text, w.cc.isSpace);
      var processed := Reduce(w.segment(text), w.cc);
      StripShape(processed, w.cc.isSpace);
      ReducedBlankIff(w.segment(text), w.cc);
      WordcloudOutcome(processed, None, w.pictureDir, w.timestamp, w.flavour, w.rendered, w.cc.isSpace);
      FilenameRule(None, w.timestamp);
    }
  }

  /** With the default target page the capture never starts. */
  lemma DefaultTargetSkipsCapture(environ: map<string, string>, w: World)
    requires "TARGET_URL" !in environ
    ensures Stages(TargetUrl(environ), w) == NotBilibili
  {
    DefaultTargetNotBilibili();
  }

  lemma DefaultTargetNotBilibili()
    ensures !Contains(DefaultTargetUrl, BilibiliDomain)
  {
    assert BilibiliDomain[2] == 'l';
    MissingCharNotContained(DefaultTargetUrl, BilibiliDomain, 'l');
  }

  /** If no matching feed response ever arrives, all scrolls are made and the
      run ends without extraction. */
  lemma NoTrafficNoResponses(targetUrl: string, w: World)
    requires Contains(targetUrl, BilibiliDomain)
    requires forall j: nat :: Accepted(w.batches(j)) == []
    ensures Stages(targetUrl, w) == NoResponses
  {
    NoTrafficRunsToCap([], w.batches, 0);
  }

  /** Responses that all fail to decode give empty text, so preprocessing never runs. */
  lemma UndecodableResponsesGiveNoText(targetUrl: string, w: World)
    requires Contains(targetUrl, BilibiliDomain) && Captured(w) != []
    requires forall i :: 0 <= i < |Captured(w)| ==> w.parse(Captured(w)[i]) == Malformed
    ensures Stages(targetUrl, w) == NoText
  {
    var payloads := DecodeAll(Captured(w), w.parse);
    AllMalformedGivesNoUris(payloads);
  }

  /** A tag fetch that raises for any collected URI ends the run in the exception handler. */
  lemma FetchFailureRaises(targetUrl: string, w: World, i: nat)
    requires Contains(targetUrl, BilibiliDomain) && Captured(w) != []
    requires var uris := AllUris(DecodeAll(Captured(w), w.parse)); i < |uris| && w.fetch(uris[i]).None?
    ensures Stages(targetUrl, w) == Raised
  {
    FetchAllFails(AllUris(DecodeAll(Captured(w), w.parse)), w.fetch);
  }

  /** The browser types of Playwright's synchronous API object: `p.chromium`,
      `p.firefox` and `p.webkit`. */
  const PlaywrightBrowserTypes: seq<string> := ["chromium", "firefox", "webkit"]

  /** The launcher `main` reaches for exists: Edge is launched through
      `p.chromium`, Firefox through `p.firefox`, and any other name through
      `getattr(p, browser_type)`, at main.py:192 and again in the fallback at
      main.py:278. */
  predicate LauncherExists(b: string) {
    b == "edge" || b == "firefox" || b in PlaywrightBrowserTypes
  }

  /** How a whole run of `main` ends: stopped by the start-up checks, failed
      to launch the browser or open the page (caught at main.py:260 and, for
      the fallback, main.py:291), or ran the stages. */
  datatype Run = Stopped(startup: Startup) | LaunchFailed | Ran(outcome: Outcome)

  /** `main`. `pageOpened` says whether launching the persistent context and
      opening the target page succeeded, given that the launcher exists. */
  function Main(environ: map<string, string>, h: Host, pathExists: string -> bool, pageOpened: bool, w: World): Run {
    var s := Start(environ, h, pathExists);
    if !s.Ready? then Stopped(s)
    else if !LauncherExists(s.browserType) || !pageOpened then LaunchFailed
    else Ran(Stages(s.targetUrl, w))
  }

  /** The stages run exactly when the start-up checks pass, the browser is not
      'chrome' and the page opened, and then on the page from `TARGET_URL`. */
  lemma MainRunsStages(environ: map<string, string>, h: Host, pathExists: string -> bool, pageOpened: bool, w: World)
    ensures Main(environ, h, pathExists, pageOpened, w).Ran? <==>
              Start(environ, h, pathExists).Ready? && BrowserType(environ) != "chrome" && pageOpened
    ensures Main(environ, h, pathExists, pageOpened, w).Ran? ==>
              Main(environ, h, pathExists, pageOpened, w).outcome == Stages(TargetUrl(environ), w)
    ensures !Start(environ, h, pathExists).Ready? ==>
              Main(environ, h, pathExists, pageOpened, w) == Stopped(Start(environ, h, pathExists))
  {
    var s := Start(environ, h, pathExists);
    StartupOutcomes(environ, h, pathExists);
    if s.Ready? {
      LauncherOfSupported(s.browserType);
    }
  }

  /** Of the four accepted names only 'chrome' has no launcher. */
  lemma LauncherOfSupported(b: string)
    requires b in SupportedBrowsers
    ensures LauncherExists(b) <==> b != "chrome"
  {
  }

  /** 'chrome' passes the browser check and may find its profile, but Playwright
      has no `chrome` launcher, so such a run never reaches the stages. */
  lemma ChromeNeverRunsStages(environ: map<string, string>, h: Host, pathExists: string -> bool, pageOpened: bool, w: World)
    requires "BROWSER_TYPE" in environ && Lower(environ["BROWSER_TYPE"]) == "chrome"
    ensures BrowserType(environ) in SupportedBrowsers
    ensures Start(environ, h, pathExists).Ready? ==> Main(environ, h, pathExists, pageOpened, w) == LaunchFailed
    ensures !Main(environ, h, pathExists, pageOpened, w).Ran?
  {
    LowerIdempotent(environ["BROWSER_TYPE"]);
    assert BrowserType(environ) == "chrome";
    MainRunsStages(environ, h, pathExists, pageOpened, w);
    StartupOutcomes(environ, h, pathExists);
  }
}
