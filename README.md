# tag_sniffer, modelled in Dafny

tag_sniffer opens the Bilibili home feed in the user's own browser profile and
scrolls it, capturing the feed's recommendation responses. From each response
it takes the recommended videos' URIs, fetches each video page's tags,
segments and cleans the tag text, and draws a word cloud of what remains.

This project models the logic of that pipeline and proves properties of it:

- `Capture` (capture.dfy): the capture object of `functions/bili.py`. A class
  holds the buffer `capturedResponses`. `OnResponse` is the response handler
  and `StartCapture` the scroll loop, proved against the specification
  function `RunFrom`. The responses that arrive during scroll `k` are the
  input `batches(k)`.
- `Extraction` (extraction.dfy): `extract_text_from_json_responses`. Decoded
  JSON is a datatype. The URI-collecting loops and the tag-fetch loop are
  methods proved against the functions `ItemUris`, `PayloadUris`, `AllUris`
  and `FetchAll`. `json.loads` is the parameter `parse`; the HTTP request
  together with `parse_html_to_tag` is the parameter `fetch`.
- `TextReduce` (text_reduce.dfy): `preprocess_text`. The token sequence of
  the segmenter is the input. The filter loop and the `Counter` loop are
  methods proved against `Filtered`, `Counts` and `Distinct`. The retention
  rule (`Retained`) is proved to keep exactly the tokens seen more than once,
  each once, in order of first occurrence, when the vocabulary exceeds 100.
- `BrowserProfile` (browser_profile.dfy): `get_user_browser_path` and the
  choice of browser in `main.py`, over an explicit environment map and host.
- `WordCloud` (word_cloud.dfy): the empty-text guard, the output file name
  rule and the output path of `generate_wordcloud` in `make_cloudword.py`.
- `Pipeline` (pipeline.dfy): `main` in `main.py`, meaning the start-up checks,
  whether a launcher exists for the chosen browser, and the chain of stages
  that each run only when the previous one produced something.
- `Text` and `Paths` (text.dfy, paths.dfy): the Python string operations the
  program uses (`in`, `strip`, `' '.join` and an ASCII `lower`) and
  `os.path.join` for POSIX and Windows paths. `Text.Split` models no call of
  the program: it is the inverse used to show that the join at
  functions/bili.py:244 loses nothing (`Text.SplitJoin`).

Three behaviours of the code worth knowing:

- The handler at functions/bili.py:118-126 never looks at the quota; only the
  loop condition at functions/bili.py:135 does, so one scroll can carry the
  buffer past 10 (`Capture.QuotaCanBeExceeded`).
- Nothing in `extract_text_from_json_responses` catches the `requests.get` at
  functions/bili.py:202; an exception leaves the function and is caught at
  main.py:260 (`Extraction.FetchAll` returns `None`, `Pipeline.Stages` gives
  `Raised`).
- `BROWSER_TYPE=chrome` passes the browser check and finds the Chrome
  profile, but main.py:192 and its fallback at main.py:278 launch through
  `getattr(p, browser_type)`, and Playwright has no `chrome` launcher. Such a
  run ends in the handlers at main.py:260 and main.py:291 and never reaches a
  stage (`Pipeline.ChromeNeverRunsStages`).

## Model

| member | source | states |
|---|---|---|
| Capture.Accepted | functions/bili.py:118-126 | the bodies the handler appends for one batch, in arrival order; characterised by `Capture.AcceptedCharacterised` and `Capture.AcceptedConcat` |
| Capture.RunFrom | functions/bili.py:132-157 | the scroll loop from scroll `k` with a given buffer, as a function; characterised by `Capture.CaptureRunSpec` and `Capture.NoTrafficRunsToCap` |
| Capture.NetworkCapture.constructor | functions/bili.py:16-26 | a new capture object starts with an empty buffer |
| Capture.NetworkCapture.OnResponse | functions/bili.py:118-126 | a response whose URL contains the feed pattern and whose body can be read appends exactly that body at the end; in every other case, including a failed `response.text()`, the buffer is unchanged; the quota is not consulted |
| Capture.NetworkCapture.Deliver | functions/bili.py:118-129 | delivering one scroll's responses to the handler appends `Accepted(batch)`, the readable matching bodies in arrival order |
| Capture.NetworkCapture.StartCapture | functions/bili.py:108-157 | the loop's final buffer and scroll count are those of `RunFrom`: at most 30 scrolls; on exit the buffer holds at least 10 bodies or 30 scrolls were made; the buffer is the old one followed by everything gathered during those scrolls; the result equals the buffer; the long pause was taken `scrolls / 5` times |
| Capture.AcceptedCharacterised | functions/bili.py:118-126 | the handler keeps a body exactly when some response in the batch matches the pattern and has that readable body; it never keeps more bodies than responses |
| Capture.AcceptedConcat | functions/bili.py:118-129 | handling two batches one after the other appends what handling their concatenation appends |
| Capture.CaptureRunSpec | functions/bili.py:132-157 | the scroll loop from any start buffer: at most 30 scrolls; it stops only when the quota is met or the cap is reached; the final buffer is the start followed by the bodies of the scrolls made; before each of those scrolls the buffer was below 10 |
| Capture.NoTrafficRunsToCap | functions/bili.py:133-135 | without matching traffic the loop makes all 30 scrolls and the buffer is unchanged |
| Capture.QuotaCanBeExceeded | functions/bili.py:118-135 | eleven matching responses during the first scroll leave 11 bodies in the buffer, past the quota of 10 |
| Extraction.ItemsOf | functions/bili.py:184 | `data.get('data', {}).get('item', [])`, or `None` when a `.get` receiver is not a dict; its effect is stated by `Extraction.FailingPayloadSkipped` |
| Extraction.PayloadUris | functions/bili.py:179-195 | the URIs one payload contributes; implemented by `Extraction.CollectPayloadUris` |
| Extraction.AllUris | functions/bili.py:176-195 | the URIs of all payloads; implemented by `Extraction.CollectUris`, characterised by `Extraction.AllUrisConcat` and `Extraction.FailingPayloadSkipped` |
| Extraction.FetchAll | functions/bili.py:197-205 | the concatenated tag lists, or `None` when a fetch raises; implemented by `Extraction.FetchTags`, characterised by `Extraction.FetchAllFails` |
| Extraction.Extracted | functions/bili.py:166-211 | the whole function's result; implemented by `Extraction.ExtractText` |
| Extraction.ItemUris | functions/bili.py:185-188 | the URIs taken from an item list are no more than the items, and each is truthy |
| Extraction.CollectItemUris | functions/bili.py:184-195 | the item loop appends the truthy `uri` fields in item order and stops at the first item that is not a dict, keeping what it appended |
| Extraction.CollectPayloadUris | functions/bili.py:179-195 | one payload contributes `PayloadUris`: nothing when it does not decode or its `data`/`item` access raises |
| Extraction.CollectUris | functions/bili.py:176-195 | `all_urls` is `AllUris` of the decoded responses: payload order, then item order |
| Extraction.FetchTags | functions/bili.py:197-205 | `all_text` is the concatenation of the tag lists in URI order, or `None` as soon as a fetch raises |
| Extraction.ExtractText | functions/bili.py:166-211 | the function returns the space-joined tags of all collected URIs, or `None` when a fetch raises |
| Extraction.AllUrisConcat | functions/bili.py:178-188 | the URIs of two runs of payloads are those of the first followed by those of the second |
| Extraction.FailingPayloadSkipped | functions/bili.py:190-195 | a payload that does not decode, or whose `data`/`item` access raises, contributes nothing and the payloads around it are still processed |
| Extraction.ItemUrisConcat | functions/bili.py:185-188 | over dict items, URIs follow item order and duplicates are kept |
| Extraction.PartialPayloadKept | functions/bili.py:185-195 | a non-dict item part-way through a payload abandons the rest of it, but the URIs appended before it stay |
| Extraction.ItemUrisMembers | functions/bili.py:185-188 | every collected URI is truthy and is the `uri` field of some dict item; every truthy `uri` before the first non-dict item is collected |
| Extraction.FetchAllFails | functions/bili.py:197-205 | the tag fetch loop fails exactly when the fetch of some URI raises |
| Extraction.AllMalformedGivesNoUris | functions/bili.py:178-192 | payloads none of which decodes give no URIs |
| Extraction.SinglePayloadExample | functions/bili.py:181-188 | `{"data":{"item":[{"uri":"http://x/1"}]}}` yields exactly that URI |
| Extraction.MalformedThenWellFormed | functions/bili.py:178-195 | a malformed payload followed by a good one yields exactly the good one's URIs |
| TextReduce.Filtered | functions/bili.py:228-236 | the filter's output; implemented by `TextReduce.FilterTokens`, characterised by `TextReduce.FilteredTokens` |
| TextReduce.Counts | functions/bili.py:239 | `Counter(xs)` as occurrence counts from the multiset of tokens; implemented by `TextReduce.CountTokens` |
| TextReduce.Retained | functions/bili.py:239-242 | the retention rule; characterised by `TextReduce.RetentionRule` and `TextReduce.RetainedTwice` |
| TextReduce.Reduce | functions/bili.py:214-248 | `preprocess_text` on the segmenter's tokens; implemented by `TextReduce.PreprocessText`, characterised by `TextReduce.ReducedBlankIff` and `TextReduce.CleanCorpusUnchanged` |
| TextReduce.Distinct | functions/bili.py:239-242 | the keys of `Counter` contain exactly the tokens of the input, each once |
| TextReduce.Frequent | functions/bili.py:242 | the comprehension keeps exactly the keys counted more than once |
| TextReduce.FilterTokens | functions/bili.py:228-236 | the filter loop computes `Filtered`, the stripped tokens passing the length, digit, punctuation and stopword tests, in order |
| TextReduce.CountTokens | functions/bili.py:239 | the counting loop yields `Counter(xs)` as a map of occurrence counts, its keys in first-occurrence order, one key per entry |
| TextReduce.PreprocessText | functions/bili.py:214-248 | the whole function returns `Reduce(words)`: filter, count, apply the retention rule when more than 100 distinct tokens remain, and join with single spaces |
| TextReduce.FilteredTokens | functions/bili.py:229-236 | a token is kept exactly when it is the stripped form of some input token and it is longer than one character, not all digits, not all punctuation and not a stopword; kept tokens are stripped; no more tokens come out than go in |
| TextReduce.KeptTokenNotBlank | functions/bili.py:230-236 | a kept token has a non-space character |
| TextReduce.DistinctCard | functions/bili.py:239-241 | `len(word_freq)` is the number of distinct filtered tokens |
| TextReduce.DistinctOrder | functions/bili.py:239-242 | `Counter` iterates its keys in order of first occurrence |
| TextReduce.FrequentOrder | functions/bili.py:242 | the comprehension keeps the keys' first-occurrence order |
| TextReduce.RetentionRule | functions/bili.py:239-244 | with at most 100 distinct tokens the list is kept as it is, duplicates included; with more, the result holds exactly the tokens occurring more than once, each once, in first-occurrence order |
| TextReduce.RetainedTwice | functions/bili.py:239-242 | applying the rule to its own result changes nothing, except that a pruned result still above 100 tokens is pruned to nothing |
| TextReduce.ReducedBlankIff | functions/bili.py:228-244 | the returned text is blank exactly when no token is retained |
| TextReduce.CleanCorpusUnchanged | functions/bili.py:228-244 | an already clean corpus with at most 100 distinct tokens is only joined |
| TextReduce.ShortTokenDropped | functions/bili.py:232 | a token of at most one character never survives the filter |
| TextReduce.TwoCharWordKept | functions/bili.py:229-236 | a two-character word of word characters, not a digit and not a stopword, survives unchanged |
| TextReduce.NotAStopword | functions/bili.py:235 | no stopword is a two-character word beginning with 游, 音 or 科 |
| TextReduce.SmallCorpusFiltered | functions/bili.py:228-236 | on `游戏 游戏 音乐 的 了 1 ! 科技` the filter drops the four one-character tokens and keeps the words in order, duplicates included |
| TextReduce.SmallCorpusExample | functions/bili.py:214-248 | that corpus reduces to `游戏 游戏 音乐 科技` |
| Text.Contains | functions/bili.py:119 | Python's `in` on strings; characterised by `Text.ContainsIff` |
| Text.Strip | functions/bili.py:230 | `str.strip()` over the abstract white-space class; characterised by `Text.StripShape` and `Text.StripIdempotent` |
| Text.JoinWords | functions/bili.py:244 | `' '.join`; characterised by `Text.SplitJoin` and `Text.JoinWordsBlank` |
| Text.Lower | main.py:80 | an ASCII-only `lower()`; characterised by `Text.LowerShape` and `Text.LowerIdempotent` |
| Text.ContainsIff | functions/bili.py:119 | Python's substring test holds exactly when the pattern occurs at some index |
| Text.StripShape | functions/bili.py:230 | `strip()` returns a string that neither starts nor ends with white space, and it is empty exactly when the input is blank |
| Text.SplitJoin | functions/bili.py:244 | joining space-free tokens with single spaces loses nothing: splitting on ' ' gives them back |
| Text.JoinWordsBlank | functions/bili.py:244 | the joined text is blank exactly when every token is |
| Text.LowerShape | main.py:80 | the model's ASCII `Lower` keeps the length, leaves no ASCII capital and changes only ASCII capitals, each to its lower-case letter (Python's full `lower()` is not modelled: see the `BrowserProfile.BrowserType` line under "## Left out") |
| Paths.JoinPath | make_cloudword.py:77 | `os.path.join(base, *parts)` for POSIX and Windows separators; characterised by `Paths.JoinPathEndsWithLast`, `Paths.JoinPathExtends` and `Paths.JoinPathUnder` |
| Paths.JoinPathEndsWithLast | make_cloudword.py:77 | a joined path ends with its last component |
| BrowserProfile.GetUserBrowserPath | main.py:41-75 | the decision table from browser name, `os.name` and platform to a profile path, `None`, or the `KeyError` of a missing home variable; characterised by the lemmas below |
| BrowserProfile.BrowserType | main.py:80 | `os.getenv('BROWSER_TYPE', 'chromium').lower()` (ASCII lower-casing); characterised by `BrowserProfile.BrowserChoice` |
| BrowserProfile.ChromeIsChromium | main.py:44-60 | 'chrome' and 'chromium' give the same profile path on every host (the path lookup only: launching differs, see `Pipeline.ChromeNeverRunsStages`) |
| BrowserProfile.LookupOutcomes | main.py:41-75 | the lookup answers `None` exactly for an unsupported browser or an OS family other than 'nt' and 'posix'; it raises `KeyError` exactly when a supported host's home variable is unset, naming `USERPROFILE` on 'nt' and `HOME` otherwise |
| BrowserProfile.FoundPathNotEmpty | main.py:41-75 | a path the lookup returns is never empty |
| BrowserProfile.WindowsLayout | main.py:43-52 | on 'nt' Chrome and Edge profiles lie under `%USERPROFILE%\AppData\Local\`, and Firefox's under `AppData\Roaming\Mozilla\Firefox\`, ending in `Profiles` |
| BrowserProfile.MacLayout | main.py:53-71 | on a 'darwin' platform every profile lies under `$HOME/Library/Application Support/` |
| BrowserProfile.LinuxLayout | main.py:53-74 | on other POSIX platforms Chrome and Edge profiles lie under `$HOME/.config/`, and Firefox's is exactly `$HOME/.mozilla/firefox` |
| BrowserProfile.BrowserChoice | main.py:80-88 | without `BROWSER_TYPE` the browser is 'chromium' and accepted; a set value is accepted exactly when its lower-cased form is one of the four names; choosing again with the chosen name gives the same browser |
| WordCloud.FinalFilename | make_cloudword.py:68-75 | the output file name; characterised by `WordCloud.FilenameRule` and `WordCloud.FilenameIdempotent` |
| WordCloud.GenerateWordcloud | make_cloudword.py:39-92 | the returned path or `None`; characterised by `WordCloud.WordcloudOutcome` and `WordCloud.WordcloudInPictureDir` |
| WordCloud.FilenameRule | make_cloudword.py:68-75 | the final name ends with '.png'; a missing or empty name becomes `user_wordcloud_<timestamp>.png`; a name already ending with '.png' is kept; any other gets '.png' appended |
| WordCloud.FilenameIdempotent | make_cloudword.py:74-75 | normalising a normalised name again changes nothing |
| WordCloud.WordcloudOutcome | make_cloudword.py:39-92 | a path is returned exactly when the text has a non-space character and rendering succeeded; it ends with the final file name and with '.png' |
| WordCloud.WordcloudInPictureDir | make_cloudword.py:77 | the picture goes directly inside the picture directory: directory, separator, file name |
| Pipeline.TargetUrl | main.py:81 | `os.getenv('TARGET_URL', 'https://www.baidu.com')`; used by `Pipeline.DefaultTargetSkipsCapture` |
| Pipeline.Start | main.py:80-94 | the start-up checks of `main`; characterised by `Pipeline.StartupOutcomes` and `Pipeline.DefaultStartup` |
| Pipeline.Stages | main.py:205-253 | the stage chain once the page is open; characterised by `Pipeline.StageOutcomes` |
| Pipeline.Main | main.py:78-303 | a whole run: stopped by the start-up checks, failed to launch or open the page, or ran the stages; characterised by `Pipeline.MainRunsStages` |
| Pipeline.StartupOutcomes | main.py:80-94 | `main` stops on an unsupported browser; raises on a missing home variable; goes on exactly with a supported browser whose non-empty profile directory exists, and with the target page from `TARGET_URL` |
| Pipeline.DefaultStartup | main.py:80-94 | with nothing configured, a Linux host with a Chromium profile starts Chromium on `$HOME/.config/google-chrome` and the default target page |
| Pipeline.StageOutcomes | main.py:205-253 | each stage runs exactly when every earlier one produced something: capture only on a page whose URL contains 'bilibili.com'; extraction only with captured responses; preprocessing only for text with a non-space character; the word cloud only when some token was retained; a saved picture is `<picture dir>/user_wordcloud_<timestamp>.png` |
| Pipeline.DefaultTargetNotBilibili | main.py:81 | the default target `https://www.baidu.com` does not contain 'bilibili.com' |
| Pipeline.DefaultTargetSkipsCapture | main.py:205 | with `TARGET_URL` unset the capture never starts |
| Pipeline.NoTrafficNoResponses | main.py:216-218 | if no matching feed response arrives, the run ends without extraction |
| Pipeline.UndecodableResponsesGiveNoText | main.py:223-225 | captured responses none of which decodes give blank text, so preprocessing never runs |
| Pipeline.FetchFailureRaises | main.py:223-262 | a tag fetch that raises for any collected URI ends the run in the exception handler around the browser session |
| Pipeline.MainRunsStages | main.py:80-205 | the stages run exactly when the start-up checks pass, the browser is not 'chrome' and the page opened, and then on the page from `TARGET_URL`; when the checks fail the run stops with their result |
| Pipeline.LauncherOfSupported | main.py:115-195 | of the four accepted names, every one but 'chrome' has a launcher: 'edge' and 'firefox' by their own branches, 'chromium' through `getattr` |
| Pipeline.ChromeNeverRunsStages | main.py:190-195 | 'chrome' passes the browser check, but with its profile found the run fails to launch (`getattr(p, 'chrome')` does not exist), so it never reaches the stages |

## Left out

- Browser lifecycle in `main.py`: launching the persistent context, the Edge retry and temporary-profile paths, opening the page, the fallback launch after the exception handler, and closing the browser. These are foreign library calls and are not modelled. `Pipeline.Main` reduces them to whether a launcher exists for the browser name (main.py:192, 278) and a parameter `pageOpened`; `Pipeline.Stages` assumes the page is open. What the fallback at main.py:265-289 does after a failure (open the page again and stop) is not modelled beyond the outcomes `LaunchFailed` and `Raised`.
- `close_edge_processes` and close_edge.py: operating-system process control with no logic to state.
- The asynchronous capture path (`setup_network_listener`, `scroll_and_collect`, `capture_network_requests`). `main` never calls it.
- Scrolling, `time.sleep` and `wait_for_load_state`: timing only. The extended pause is counted as a ghost out-parameter of `StartCapture`.
- Capture.NetworkCapture.StartCapture: registers no handler. Each call of `start_capture` registers another handler (functions/bili.py:129), so a second call on the same object would append every body twice. The model describes one call, in which the handler delivers each response once, in arrival order, during the scroll in which it arrives.
- Concurrency of response delivery: the handler runs between scrolls in arrival order. The responses of scroll `k` are the input `batches(k)`.
- `requests.get` and `parse_html_to_tag` (BeautifulSoup): the parameter `fetch`, where `None` stands for an exception. `fetch` is a function of the URI alone, so in the model two fetches of the same URI (duplicates are kept, functions/bili.py:188) give the same tags or the same failure; the source makes a separate request for each position of the list (functions/bili.py:197-204), which may answer differently. No proved property depends on this.
- `json.loads`: the parameter `parse`. JSON numbers are reals; NaN and Infinity are not modelled.
- jieba segmentation: the parameter `segment`, or the token list itself.
- The Unicode classes behind `str.isspace`, `str.isdigit` and the regex classes `\w` and `\s`: abstract predicates in `CharClasses`. One white-space predicate stands for both `isspace` and `\s`. The regex `$` also matching before a final newline does not matter, since the tested word is already stripped.
- BrowserProfile.BrowserType: lower-cases ASCII letters only. Python's `lower()` also maps other capitals, but none of them lowers to a letter of the four browser names, so whether a name is accepted does not change.
- `os.path.join` on Windows: drive letters and UNC prefixes are not modelled. A component starting with a separator restarts the path.
- Word cloud rendering, font lookup, directory creation and saving: the parameters `rendered` and `pictureDir`. `datetime.now` is the parameter `timestamp`.
- `input()`, `os.startfile` and all printing and progress bars: output only.
- `load_dotenv` and `os.path.exists`: the environment map and the parameter `pathExists`.
