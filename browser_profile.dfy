/** Choosing the browser and locating its user profile directory
    (`get_user_browser_path` and the browser-type check of `main` in main.py). */
module BrowserProfile {
  import opened Text
  import opened Paths

  const DefaultBrowser: string := "chromium"
  const SupportedBrowsers: seq<string> := ["chromium", "chrome", "edge", "firefox"]

  /** The host as Python reports it: `os.name` and `sys.platform`. */
  datatype Host = Host(osName: string, platform: string)

  /** How the lookup ends: a path, Python's `None`, or the `KeyError` raised
      when the home-directory variable is not set. */
  datatype Lookup = Found(path: string) | NoPath | MissingVar(name: string)

  /** The variable that holds the user's home directory on each OS family. */
  function HomeVar(osName: string): string {
    if osName == "nt" then "USERPROFILE" else "HOME"
  }

  predicate IsMac(h: Host) {
    Contains(h.platform, "darwin")
  }

  /** `os.path.join(os.environ[v], *parts)`: the variable is read first, so a
      missing one raises before anything is joined. */
  function UnderVar(f: Flavour, environ: map<string, string>, v: string, parts: seq<string>): Lookup {
    if v in environ then Found(JoinPath(f, environ[v], parts)) else MissingVar(v)
  }

  /** `get_user_browser_path(browser_type)`: the decision table over the OS
      family, the platform and the browser. */
  function GetUserBrowserPath(browserType: string, h: Host, environ: map<string, string>): Lookup {
    if h.osName == "nt" then
      if browserType in ["chromium", "chrome"] then
        UnderVar(Windows, environ, "USERPROFILE", ["AppData", "Local", "Google", "Chrome", "User Data"])
      else if browserType == "edge" then
        UnderVar(Windows, environ, "USERPROFILE", ["AppData", "Local", "Microsoft", "Edge", "User Data"])
      else if browserType == "firefox" then
        UnderVar(Windows, environ, "USERPROFILE", ["AppData", "Roaming", "Mozilla", "Firefox", "Profiles"])
      else NoPath
    else if h.osName == "posix" then
      if browserType in ["chromium", "chrome"] then
        if IsMac(h) then UnderVar(Posix, environ, "HOME", ["Library", "Application Support", "Google", "Chrome"])
        else UnderVar(Posix, environ, "HOME", [".config", "google-chrome"])
      else if browserType == "edge" then
        if IsMac(h) then UnderVar(Posix, environ, "HOME", ["Library", "Application Support", "Microsoft Edge"])
        else UnderVar(Posix, environ, "HOME", [".config", "microsoft-edge"])
      else if browserType == "firefox" then
        if IsMac(h) then UnderVar(Posix, environ, "HOME", ["Library", "Application Support", "Firefox", "Profiles"])
        else UnderVar(Posix, environ, "HOME", [".mozilla", "firefox"])
      else NoPath
    else NoPath
  }

  /** 'chrome' is an alias of 'chromium' on every host. */
  lemma ChromeIsChromium(h: Host, environ: map<string, string>)
    ensures GetUserBrowserPath("chrome", h, environ) == GetUserBrowserPath("chromium", h, environ)
  {
  }

  /** The function answers `None` exactly for an unsupported browser or an OS
      family other than 'nt' and 'posix'; it raises exactly when the home
      variable of a supported host is unset. */
  lemma LookupOutcomes(browserType: string, h: Host, environ: map<string, string>)
    ensures GetUserBrowserPath(browserType, h, environ) == NoPath <==>
              browserType !in SupportedBrowsers || (h.osName != "nt" && h.osName != "posix")
    ensures GetUserBrowserPath(browserType, h, environ).MissingVar? <==>
              browserType in SupportedBrowsers && (h.osName == "nt" || h.osName == "posix") && HomeVar(h.osName) !in environ
    ensures GetUserBrowserPath(browserType, h, environ).MissingVar? ==>
              GetUserBrowserPath(browserType, h, environ).name == HomeVar(h.osName)
  {
  }

  lemma UnderVarNotEmpty(f: Flavour, environ: map<string, string>, v: string, parts: seq<string>)
    requires parts != [] && parts[|parts| - 1] != ""
    ensures UnderVar(f, environ, v, parts).Found? ==> UnderVar(f, environ, v, parts).path != ""
  {
    if v in environ {
      JoinPathEndsWithLast(f, environ[v], parts);
    }
  }

  /** A path the lookup finds is never empty, so the caller's `not user_data_dir`
      test only rejects `None`. */
  lemma FoundPathNotEmpty(browserType: string, h: Host, environ: map<string, string>)
    ensures GetUserBrowserPath(browserType, h, environ).Found? ==> GetUserBrowserPath(browserType, h, environ).path != ""
  {
    var mac := IsMac(h);
    if h.osName == "nt" {
      UnderVarNotEmpty(Windows, environ, "USERPROFILE", ["AppData", "Local", "Google", "Chrome", "User Data"]);
      UnderVarNotEmpty(Windows, environ, "USERPROFILE", ["AppData", "Local", "Microsoft", "Edge", "User Data"]);
      UnderVarNotEmpty(Windows, environ, "USERPROFILE", ["AppData", "Roaming", "Mozilla", "Firefox", "Profiles"]);
    } else if h.osName == "posix" && mac {
      UnderVarNotEmpty(Posix, environ, "HOME", ["Library", "Application Support", "Google", "Chrome"]);
      UnderVarNotEmpty(Posix, environ, "HOME", ["Library", "Application Support", "Microsoft Edge"]);
      UnderVarNotEmpty(Posix, environ, "HOME", ["Library", "Application Support", "Firefox", "Profiles"]);
    } else if h.osName == "posix" {
      UnderVarNotEmpty(Posix, environ, "HOME", [".config", "google-chrome"]);
      UnderVarNotEmpty(Posix, environ, "HOME", [".config", "microsoft-edge"]);
      UnderVarNotEmpty(Posix, environ, "HOME", [".mozilla", "firefox"]);
    }
  }

  /** The path of `UnderVar(v, xs + ys)` lies under the directory `v/xs`. */
  lemma UnderDirectory(f: Flavour, environ: map<string, string>, v: string, xs: seq<string>, ys: seq<string>)
    requires v in environ && xs != [] && ys != [] && AllRelative(f, ys)
    requires var last := xs[|xs| - 1]; last != [] && !IsSep(f, last[|last| - 1])
    ensures var r := UnderVar(f, environ, v, xs + ys);
            r.Found? && IsPrefix(JoinPath(f, environ[v], xs) + [Sep(f)], r.path) &&
            EndsWith(r.path, ys[|ys| - 1])
  {
    var d := JoinPath(f, environ[v], xs);
    JoinPathEndsWithLast(f, environ[v], xs);
    var last := xs[|xs| - 1];
    assert d[|d| - 1] == last[|last| - 1];
    JoinPathUnder(f, environ[v], xs, ys);
    assert (xs + ys)[|xs + ys| - 1] == ys[|ys| - 1];
    JoinPathEndsWithLast(f, environ[v], xs + ys);
  }

  /** On Windows every profile lies under `%USERPROFILE%\AppData`: Chrome and
      Edge under `AppData\Local`, Firefox under `AppData\Roaming\Mozilla\Firefox\Profiles`. */
  lemma WindowsLayout(browserType: string, h: Host, environ: map<string, string>)
    requires h.osName == "nt" && "USERPROFILE" in environ
    requires browserType in SupportedBrowsers
    ensures var r := GetUserBrowserPath(browserType, h, environ);
            var home := environ["USERPROFILE"];
            && r.Found?
            && (browserType != "firefox" ==> IsPrefix(JoinPath(Windows, home, ["AppData", "Local"]) + ['\\'], r.path))
            && (browserType == "firefox" ==>
                  IsPrefix(JoinPath(Windows, home, ["AppData", "Roaming", "Mozilla", "Firefox"]) + ['\\'], r.path) &&
                  EndsWith(r.path, "Profiles"))
  {
    if browserType in ["chromium", "chrome"] {
      UnderDirectory(Windows, environ, "USERPROFILE", ["AppData", "Local"], ["Google", "Chrome", "User Data"]);
      assert ["AppData", "Local"] + ["Google", "Chrome", "User Data"] == ["AppData", "Local", "Google", "Chrome", "User Data"];
    } else if browserType == "edge" {
      UnderDirectory(Windows, environ, "USERPROFILE", ["AppData", "Local"], ["Microsoft", "Edge", "User Data"]);
      assert ["AppData", "Local"] + ["Microsoft", "Edge", "User Data"] == ["AppData", "Local", "Microsoft", "Edge", "User Data"];
    } else {
      UnderDirectory(Windows, environ, "USERPROFILE", ["AppData", "Roaming", "Mozilla", "Firefox"], ["Profiles"]);
      assert ["AppData", "Roaming", "Mozilla", "Firefox"] + ["Profiles"] == ["AppData", "Roaming", "Mozilla", "Firefox", "Profiles"];
    }
  }

  /** On macOS every profile lies under `$HOME/Library/Application Support`. */
  lemma MacLayout(browserType: string, h: Host, environ: map<string, string>)
    requires h.osName == "posix" && IsMac(h) && "HOME" in environ
    requires browserType in SupportedBrowsers
    ensures var r := GetUserBrowserPath(browserType, h, environ);
            r.Found? && IsPrefix(JoinPath(Posix, environ["HOME"], ["Library", "Application Support"]) + ['/'], r.path)
  {
    var base := ["Library", "Application Support"];
    if browserType in ["chromium", "chrome"] {
      UnderDirectory(Posix, environ, "HOME", base, ["Google", "Chrome"]);
      assert base + ["Google", "Chrome"] == ["Library", "Application Support", "Google", "Chrome"];
    } else if browserType == "edge" {
      UnderDirectory(Posix, environ, "HOME", base, ["Microsoft Edge"]);
      assert base + ["Microsoft Edge"] == ["Library", "Application Support", "Microsoft Edge"];
    } else {
      UnderDirectory(Posix, environ, "HOME", base, ["Firefox", "Profiles"]);
      assert base + ["Firefox", "Profiles"] == ["Library", "Application Support", "Firefox", "Profiles"];
    }
  }

  /** On other POSIX systems Chrome and Edge keep their profiles under
      `$HOME/.config`, and Firefox's is exactly `$HOME/.mozilla/firefox`. */
  lemma LinuxLayout(browserType: string, h: Host, environ: map<string, string>)
    requires h.osName == "posix" && !IsMac(h) && "HOME" in environ
    requires browserType in SupportedBrowsers
    ensures var r := GetUserBrowserPath(browserType, h, environ);
            var home := environ["HOME"];
            && r.Found?
            && (browserType != "firefox" ==> IsPrefix(JoinPath(Posix, home, [".config"]) + ['/'], r.path))
            && (browserType == "firefox" ==> r.path == JoinPath(Posix, home, [".mozilla", "firefox"]))
  {
    if browserType in ["chromium", "chrome"] {
      UnderDirectory(Posix, environ, "HOME", [".config"], ["google-chrome"]);
    } else if browserType == "edge" {
      UnderDirectory(Posix, environ, "HOME", [".config"], ["microsoft-edge"]);
    }
  }

  /** `os.getenv('BROWSER_TYPE', 'chromium').lower()`. */
  function BrowserType(environ: map<string, string>): string {
    Lower(if "BROWSER_TYPE" in environ then environ["BROWSER_TYPE"] else DefaultBrowser)
  }

  /** The browser check: without `BROWSER_TYPE` the default 'chromium' is
      chosen and accepted; a set value is accepted exactly when its lower-case
      form is one of the four names, so the check ignores case; and setting
      the variable to the chosen name chooses the same browser again. */
  lemma BrowserChoice(environ: map<string, string>)
    ensures "BROWSER_TYPE" !in environ ==> BrowserType(environ) == "chromium" && BrowserType(environ) in SupportedBrowsers
    ensures "BROWSER_TYPE" in environ ==> (BrowserType(environ) in SupportedBrowsers <==> Lower(environ["BROWSER_TYPE"]) in SupportedBrowsers)
    ensures BrowserType(environ["BROWSER_TYPE" := BrowserType(environ)]) == BrowserType(environ)
  {
    var raw := if "BROWSER_TYPE" in environ then environ["BROWSER_TYPE"] else DefaultBrowser;
    LowerIdempotent(raw);
    if "BROWSER_TYPE" !in environ {
      assert Lower(DefaultBrowser) == "chromium";
    }
  }
}
