# SmishX detector core in Dafny

This project models the deterministic core of SmishX's `SMSPhishingDetector`
(`main.py`). The detector takes an SMS, asks a language model for the URLs and
brands in it, gathers evidence about every URL and searches for the brands'
official sites. It then compiles everything into one detection prompt, asks a
model for a verdict, and asks again for a plain-language explanation.

Every language-model call, HTTP request, registration lookup, crawler run and
web search is an input to the model, as a total function. The fetchers of
`Evidence.Fetchers` take the index of the URL or brand they work for and
their argument. Most answer with an `Option`, where `None` stands for the
exception the fetcher catches; `capture` answers with a success flag and
`search` with a list of links. The model calls and JSON parses of
`Detector.Models` take only the prompt or the reply text, and `None` stands
for the call or the parse raising. What the detector does with these answers
is modelled and proved:

- the URL string helpers (`Urls`);
- the clean-up of model replies (`ReplyCleaning`);
- redirect-chain assembly (`Redirects`);
- the per-URL evidence loop with its five toggles and its screenshot files (`UrlAnalysis`);
- the brand search and the attaching of the brand map to every URL record;
- the detection prompt compiler (`DetectionPrompt`);
- the fail-closed verdict and the terminal return value (`Verdicts`);
- the whole run of `detect_sms_phishing`, including the `KeyError`s its
  reads of the extraction reply can raise (`Detector`).

The extraction reply keeps each of its four keys as possibly missing
(`Evidence.Extraction`). The detection verdict keeps every key the model sent,
in the reply's order, with booleans and strings as such and any other value as
opaque JSON text (`Verdicts.Verdict`). Reading a key is a look-up in that list
(`Verdicts.Lookup`).

Python's insertion-ordered dicts keyed `0..n-1` are association lists
(`OrderedDict`). The prompt's `items()` order is therefore their order.
The output directory is the set of file names that exist, passed in and handed
back. A key that a toggle leaves out of a record (`Absent`) is kept apart from
the `"non"` sentinel a failed fetch stores (`Non`).

Modules, in dependency order:

- `wrappers.dfy`
- `text.dfy`
- `urls.dfy`
- `cleaning.dfy`
- `ordered_dict.dfy`
- `evidence.dfy`
- `paths.dfy`
- `redirects.dfy`
- `url_analysis.dfy`
- `detection_prompt.dfy`
- `verdicts.dfy`
- `detector.dfy`

Behaviours of the code that the model keeps as they are:

- The fallback verdict of `_perform_final_detection` (main.py:430-432) carries
  no tag marking it as synthetic. `Verdicts.Fallback` is the plain
  three-key verdict, so a model-issued verdict with the same three values
  and no other key cannot be told apart from it.
- When the explanation call fails, the text is
  "Unable to generate user-friendly analysis." (main.py:447).
- A reply missing `is_brand`, with brand search on and URLs to examine,
  raises at main.py:77 only after every URL has been examined. The screenshots
  written by then stay in the output directory (`Detector.ExamineSeed`).
- With `is_URL` true and an empty `URLs` list, the prompt ends with the SMS
  line: there is no "No URL" line and no URL line (main.py:377-412,
  `DetectionPrompt.PromptNoUrlLine`).
- With `is_brand` true and `brands` equal to the string `"non"`, the code
  iterates over the characters `n`, `o`, `n`. It searches for each of them
  and lists "3 brands" in the prompt (`Evidence.Elements`).

## Model

| member | source | states |
|---|---|---|
| `Urls.NormalizeUrl` | main.py:167-171 | The result always starts with `http://` or `https://`. It equals the input exactly when the input already starts with one of them; any other input becomes `"http://" + url`. |
| `Urls.NormalizeIdempotent` | main.py:167-171 | Normalising twice is normalising once. |
| `Urls.TruncateContent` | main.py:225 | The kept page text is a prefix of the response text, of length `min(len, 10000)`. |
| `Urls.TruncateIdempotent` | main.py:225 | Truncating twice is truncating once. |
| `Urls.CheckUrlValidity` | main.py:173-185 | The status is passed through (`None` when the request raised). The URL is valid exactly when a status exists and lies in 200..399. |
| `Urls.HostAsWritten` | main.py:259 | `url.split("//")[-1].split("/")[0]` as written: the last piece of the left-to-right split on `//`, up to its first `/`. It never holds a `/`. |
| `Urls.SplitLastPiece` | main.py:259 | If `x` does not end in `/`, and `t` holds no `//` and does not start with `/`, then splitting `x//t` on `//` gives at least two pieces, and the last one is `t`. |
| `Urls.HostAfterLastDoubleSlash` | main.py:259 | Under the same conditions, the as-written host of `x//t` is the text of `t` up to its first `/`. |
| `Urls.HostAsWrittenTripleSlash` | main.py:259 | `http:///x` splits on `//` into `http:` and `/x`, so its as-written host is empty, not `x`. |
| `Urls.Host` | main.py:259 | The host as intended: the text after the first `//`, up to the next `/`; it never holds a `/`. |
| `Urls.HostOfAuthority` | main.py:259 | For any `scheme//host[/rest]` with no `/` in scheme or host, `Host` returns exactly `host`. |
| `Urls.HostAsWrittenFollowsEmbeddedUrl` | main.py:259 | For `http://a/?u=http://b`, the split as written yields `b` (the embedded URL's host) while `Host` yields `a`. |
| `Urls.EmbeddedLastPiece` | main.py:259 | The as-written split of a URL that embeds `http://b` in its query picks `b`. |
| `Text.Split` | main.py:259 | Python's `str.split(sep)` always yields at least one piece. |
| `Text.Find` | main.py:259 | The leftmost position where the separator occurs, or none exactly when it does not occur. |
| `Text.SplitAtFind` | main.py:259 | The split scans left to right. With no occurrence, the string is the only piece. Otherwise the first piece is the text before the leftmost occurrence, and the rest is the split of the text after that occurrence. |
| `Text.SplitPiecesFree` | main.py:259 | No piece of a split holds the separator. |
| `Text.SplitJoin` | main.py:259 | Joining the pieces of a split with the separator gives the string back. |
| `Text.Strip` | main.py:481 | `str.strip()`: the result is the window of the input that starts where the leading whitespace ends. Everything before and after the window is whitespace, and the window neither starts nor ends with whitespace. |
| `Text.ReplaceAllIsJoinSplit` | main.py:478-480 | `s.replace(pat, rep)` equals `rep.join(s.split(pat))`: every occurrence found by the left-to-right split is replaced, and the text between occurrences is kept. |
| `Text.DeleteFenceComplete` | main.py:480 | After `replace("```", "")` the text holds no triple backtick. The deletion cannot create a new fence. |
| `Text.NatToString` | main.py:268 | `str(n)` is a non-empty run of decimal digits with no leading zero. |
| `Text.ParseNatToString` | main.py:268 | Reading the decimal text of `n` back gives `n`. |
| `Text.NatToStringInjective` | main.py:268 | Different indices have different decimal texts. |
| `ReplyCleaning.CleanJsonResponse` | main.py:476-481 | The cleaned reply holds no newline and no triple backtick, and has no whitespace at either end. |
| `ReplyCleaning.CleanFixesClean` | main.py:476-481 | A reply already free of newlines, fences and edge whitespace is returned unchanged. |
| `ReplyCleaning.CleanIdempotent` | main.py:476-481 | Cleaning twice is cleaning once. |
| `ReplyCleaning.CleanFencedReply` | main.py:476-481 | A reply fenced as a JSON code block cleans to its body. |
| `OrderedDict.Get` | main.py:409 | `d.get(k)` is `None` exactly when `k` is not a key, and otherwise a value stored under `k`. |
| `OrderedDict.GetValid` | main.py:409 | With distinct keys, looking up the key of entry `i` gives entry `i`'s value. |
| `OrderedDict.GetEnumerated` | main.py:409 | In a dict keyed `0..n-1` in order, key `i` holds the `i`-th entry. |
| `OrderedDict.Put` | main.py:131 | `d[k] = v` keeps the key order, and appends `k` when it is new. |
| `OrderedDict.GetPutSame` | main.py:131 | After `d[k] = v`, `d.get(k)` is `v`. |
| `OrderedDict.GetPutOther` | main.py:131 | After `d[k] = v`, every other key reads as before. |
| `OrderedDict.PutExisting` | main.py:80 | Assigning to an existing key replaces that entry in place and changes nothing else. |
| `OrderedDict.PutFresh` | main.py:131 | Assigning to a new key appends the entry at the end. |
| `OrderedDict.EnumeratedValid` | main.py:128-131 | A dict keyed `0..n-1` in order has distinct keys. |
| `Evidence.Elements` | main.py:345 | A `for` over a list visits its items. Over the string `"non"` it visits its three characters. |
| `Evidence.AnalysisOf` | main.py:61-64 | Before URL analysis the record is the parsed extraction reply, with `URLs` still the sentinel or the raw list. |
| `Paths.PathJoin` | main.py:268 | `os.path.join`: an absolute name wins; otherwise the directory and the name, with one `/` added when the directory does not end in one. A relative name joined to an empty directory, or to one ending in `/`, is the directory followed by the name. |
| `Paths.ScreenshotPathInDir` | main.py:268 | The screenshot path of URL `i` (`ScreenshotPath`) begins with the output directory and ends with `screenshot_<i>.png`. |
| `Paths.ScreenshotPathInjective` | main.py:268 | Different URL positions get different screenshot paths in any directory. |
| `Redirects.Zip` | main.py:212 | `list(zip(xs, ys))`: pairs by position, up to the shorter length. |
| `Redirects.RedirectChain` | main.py:195-214 | On a failed request: the sentinel. Otherwise `len(history) + 1` pairs: the history's (url, status) in order, then the final response's. |
| `Redirects.GetRedirectChain` | main.py:195-214 | Collecting two lists in a loop, appending the final response and zipping gives exactly `RedirectChain`. |
| `UrlAnalysis.FinalUrl` | main.py:134-137 | `final_URL` is the expanded URL when expansion succeeded with a non-empty URL, and the normalised URL otherwise. |
| `UrlAnalysis.HtmlEvidence` | main.py:216-233 | On a failed reader request, both fields hold the fixed no-information text. Otherwise the content is the response text cut to 10000 characters. The summary is the summariser's answer on exactly that content, or "Could not analyze content". |
| `UrlAnalysis.DomainInfo` | main.py:256-263 | The registration record of the URL's host; the sentinel exactly when the lookup fails. |
| `UrlAnalysis.ScreenshotStep` | main.py:265-294 | An existing file is not captured again. A missing file is created exactly when capture succeeds. A failed capture leaves `"non"` in both fields. Otherwise the description is the vision model's answer, or `"non"`. |
| `UrlAnalysis.UrlEvidenceFor` | main.py:130-163 | Entry `i` has `URL == urls[i]` and `final_URL` as `FinalUrl` gives it. Each evidence key is present exactly when its toggle is on. Redirects and registration use the normalised URL; page text and screenshot use `final_URL`. No `brand_search` key is added. |
| `UrlAnalysis.EvidenceSeesOwnScreenshot` | main.py:265-276 | Of all the files that exist, a URL's record depends only on whether its own screenshot exists. |
| `UrlAnalysis.EvidenceAddsOwnScreenshot` | main.py:265-276 | Examining a URL adds at most its own screenshot to the files. |
| `UrlAnalysis.AnalyzeUrl` | main.py:131-163 | The loop body fills the record key by key and yields exactly `UrlEvidenceFor`. |
| `UrlAnalysis.AnalyzeStep` | main.py:130-163 | One more loop iteration keeps the loop's invariant. The keys stay `0..k-1`, each record is the one seen with the original files, the files are the original ones plus the recorded screenshots, and no later URL's screenshot exists yet. |
| `UrlAnalysis.AnalyzeUrls` | main.py:117-165 | Keys are exactly `0..n-1` in order. Record `i` is `UrlEvidenceFor(urls[i])` as seen with the files before the call. Afterwards the files are the earlier ones plus every recorded screenshot. |
| `UrlAnalysis.BrandMap` | main.py:341-351 | The brand map has keys `0..m-1`; entry `i` holds `brands[i]` and its search results. |
| `UrlAnalysis.SearchBrandDomains` | main.py:341-351 | The brand loop builds exactly `BrandMap`. |
| `UrlAnalysis.AttachBrandSearch` | main.py:79-80 | Every URL record gets the same brand map under `brand_search`. The keys, their order and every other field of every record are unchanged. |
| `DetectionPrompt.EvidenceLinesEmpty` | main.py:390-400 | A URL record contributes no evidence line exactly when its redirect chain, summary, registration record and screenshot description are all absent or `"non"`. |
| `DetectionPrompt.BrandBlockShape` | main.py:403-410 | No brand gives no block. One brand gives its name and results lines alone. Several brands put the count line first. |
| `DetectionPrompt.SectionShape` | main.py:383-410 | A URL's section opens with its URL line. It is that line alone when the record has no evidence line and no brand block. |
| `DetectionPrompt.BareSections` | main.py:382-387 | Records keyed by position, with no evidence lines and no brand block, contribute one URL line each, in order. |
| `DetectionPrompt.BrandDomains` | main.py:409 | A brand's results line shows the map's `brand_domain` for that index, or `[]` when the index is missing. |
| `DetectionPrompt.Prompt` | main.py:372-414 | The prompt begins with the template and the SMS line. Without URLs, the only text after that is the no-URL line. |
| `DetectionPrompt.SectionsAppend` | main.py:382-410 | The sections of two runs of URL records are those of the first run followed by those of the second. The sections follow key order. |
| `DetectionPrompt.SectionsFirst` | main.py:382-387 | The first record's section opens the URL sections. |
| `DetectionPrompt.PromptOneUrl` | main.py:379-410 | With exactly one URL: no count line, the unindexed `- URL:` line, its evidence lines, then its brand block. |
| `DetectionPrompt.PromptManyUrls` | main.py:379-385 | With several URLs: the count line follows the SMS line, then the sections in key order, starting with the indexed line of the first key. |
| `DetectionPrompt.PromptNoUrlLine` | main.py:377-412 | The no-URL line follows the SMS line exactly when `is_URL` is false or `URLs` is `"non"`. |
| `DetectionPrompt.BuildDetectionPrompt` | main.py:372-414 | The `prompt +=` loops build exactly `Prompt`. |
| `DetectionPrompt.AppendUrlSection` | main.py:383-410 | One URL's section, in order: its line, then redirect, summary, domain and screenshot lines, each only when present and not `"non"`, then the brand block when `brand_search` is present and `is_brand` holds. |
| `DetectionPrompt.AppendEvidenceLines` | main.py:390-400 | Appends the redirect, summary, domain and screenshot lines in that order. Each is appended only when its key is present and not `"non"`, which is exactly `EvidenceLines`. |
| `DetectionPrompt.AppendBrandBlock` | main.py:403-410 | A count line only for more than one brand, then a name line and a results line per brand, in order. |
| `Verdicts.ExtractionPrompt` | main.py:104 | The extraction prompt is the template, a newline, then the SMS verbatim. |
| `Verdicts.ExtractUrlsAndBrands` | main.py:102-115 | The result is the parse of the cleaned reply, with every key that is missing kept as missing. The step fails exactly when the call or the parse fails. |
| `Verdicts.KeyIndex` | main.py:100 | The position of the first entry holding the key, or none exactly when no entry holds it. |
| `Verdicts.Lookup` | main.py:100 | `verdict.get(key)` is none exactly when no entry holds the key. Otherwise it is the value of the first entry holding the key. |
| `Verdicts.FallbackKeys` | main.py:432 | The fallback verdict has exactly three entries: `category` true, `brief_reason` "Analysis failed" and `advice` "Exercise caution". |
| `Verdicts.FinalDetection` | main.py:416-432 | Either the parsed cleaned reply, with all its keys in the reply's order, or the fixed `Fallback` verdict when the call or the parse fails. |
| `Verdicts.Category` | main.py:100 | `get('category', True)`: the reply's `category` value as it stands, or `True` when the key is missing. It is `False` exactly when the verdict holds an explicit false category. |
| `Verdicts.FailClosed` | main.py:416-432 | The run returns `False` only when three things hold: the model answered, its cleaned reply parsed, and that verdict's `category` is false. When the call or the parse fails, it returns `True`. |
| `Verdicts.ExplanationPrompt` | main.py:436 | The explanation prompt is exactly the template, the SMS label, the SMS and the result label, followed directly by `str()` of the whole verdict, whose keys stay in the reply's order. |
| `Verdicts.UserFriendlyOutput` | main.py:434-447 | The explanation is the cleaned reply, or the fixed apology when the call fails. It never holds a newline or a fence. |
| `Detector.SeedFrom` | main.py:64-78 | Once line 64 has read `is_URL` (and `URLs` when `is_URL` holds) without raising, every key present keeps its value. A missing `is_brand` reads as false, and a missing `URLs` occurs only with a false `is_URL`. |
| `Detector.DefaultsUnread` | main.py:64-78 | On a run that does not raise, the defaults put in for missing keys never reach the prompt. A missing `URLs` gives the no-URL line, and a missing `is_brand` or `brands` gives no brand block. |
| `Detector.AnalysisAfter` | main.py:63-80 | When `is_URL` holds and `URLs` is a list, `URLs` becomes one record per URL, keyed `0..n-1`. The brand map is attached exactly when brand search is on and `is_brand` holds. Otherwise the record is the seed unchanged. |
| `Detector.RecordedIgnoresBrandSearch` | main.py:79-80 | Attaching the brand map changes no recorded screenshot. |
| `Detector.ExaminedAnalysis` | main.py:74-80 | Enumerated records, each the URL's evidence with the brand field, make up `AnalysisAfter`. |
| `Detector.ExaminedScreenshots` | main.py:74-80 | The screenshots the URL loop records are those of `AnalysisAfter`, whatever brand field is attached later. |
| `Detector.ExamineSeed` | main.py:63-80 | Step 2 raises exactly on a missing `is_URL`, or a missing `URLs` when `is_URL` holds (before any URL is examined), or, with brand search on and URLs examined, a missing `is_brand`, or a missing `brands` when `is_brand` holds (after the URLs are examined). Otherwise it yields exactly `AnalysisAfter`. Unless it raised early, the files grow by the recorded screenshots exactly when URLs are examined, even when a late read raises. |
| `Detector.DetectSmsPhishing` | main.py:32-100 | The run raises exactly when extraction fails or a key read of step 2 raises; its files are then as `ExamineSeed` leaves them. Otherwise the report holds the analysis `AnalysisAfter`, the prompt `Prompt` of it, the verdict `FinalDetection` of the model's answer, and the explanation of the whole verdict. The returned value is `Category` of the verdict. |
| `Detector.BrandResultsFromSearch` | main.py:407-410 | In the pipeline, the results line of brand `j` shows the search results for `brands[j]`. |
| `Detector.NoUrlLineUnlessExamined` | main.py:64 | In the pipeline, the no-URL line follows the SMS line exactly when the URLs are not examined. |
| `Detector.BareRecords` | main.py:130-163 | With every toggle off, each URL record in the pipeline has neither evidence lines nor a brand block. |
| `Detector.PromptWithTogglesOff` | main.py:372-414 | With every toggle off, the prompt is the SMS line, the count line for several URLs, then one URL line per URL in order. |

## Left out

- Language-model calls (extraction, summary, vision, detection, explanation). Their replies are inputs, and so are the JSON parses of the cleaned replies.
- HTTP requests, the registration lookup, the crawler subprocess and the web search. Only their answers enter the model, as functions of the call's position and argument.
- `_expand_url`, `_get_redirect_chain`'s request, the reader request, `_summarize_html_content`, `whois.whois`, `_take_screenshot`, `_analyze_screenshot_with_gpt` and `_google_search_brand` are the fields `expand`, `head`, `reader`, `summarize`, `whois`, `capture`, `describe` and `search` of `Evidence.Fetchers`. The summariser's own JSON clean-up and parse sit inside `summarize`. The search's `[]` on failure sits inside `search`.
- `UrlAnalysis.ScreenshotStep`: a new screenshot file appears exactly when the crawler run reports success. The model covers neither of two mismatches between the two:
  - The crawler can write the file (crawler.js:22) and then fail to close the browser (crawler.js:29). It then exits with status 1 (crawler.js:33), so the source stores `"non"` in both fields although the file exists, and a later run reuses that file.
  - A run that reports success without writing the file would make the source read a missing file and store `"non"` as the description.
- The prompt templates (main.py:483-526). They are opaque string parameters.
- Python's `str()` of lists and of the verdict dict. It is the parameter `Render` and `showVerdict`.
- Creating the output directory, reading the screenshot image and writing `analysis_output.json` (main.py:58, 299-300, 449-456). The output directory is modelled only as the set of file names that exist.
- `_prepare_for_json_serialization` (main.py:458-474). It converts library runtime types for `json.dump` and does not affect the prompt or the result.
- The fields the run saves next to the analysis are `Detector.Report`. Writing them to disk is left out.
- The module-level `detect_sms_phishing` (main.py:529-548) is not part of this model. It passes two of the four constructor arguments and cannot run as written.
- config.py is not part of this model: it holds only credential placeholders.
- Extraction replies whose `is_URL` or `is_brand` are present but not booleans, or whose `URLs` or `brands` hold any value other than `"non"` or a list of strings, are not modelled. That covers `null`, a number, an object, another string, or a list with a non-string item. A list such as `["a.com", 5]` would have its first URL examined, with its screenshot written, before `_normalize_url` raised on `5` (main.py:169) outside any handler of the loop (main.py:130). Neither are replies that parse to something other than a JSON object.
- `Verdicts.Verdict`: values other than booleans and strings are opaque JSON text, and their contents are not interpreted. A non-boolean `category` is returned as it stands; what a caller makes of its truthiness is outside the model.
- `Verdicts.Lookup`: if a parsed reply held the same key twice, the look-up would take the first entry, whereas `json.loads` keeps the last value. The parser parameter is expected to return each key once.
- `Detector.SeedFrom`: a key that is missing but never read with `[]` is replaced by its default. The analysis record therefore does not tell a missing key from one holding that default. The prompt reads such keys with `.get` and cannot tell them apart either (`Detector.DefaultsUnread`); only the saved file could, and writing it is left out.
- `UrlAnalysis.DomainInfo` uses the corrected `Urls.Host` for the registration lookup, not the as-written split; see Findings.
- Concurrency and timeouts: the source is sequential.

## Findings

| source | as written | input that shows it | evidently intended | confidence | as-written member | corrected member |
|---|---|---|---|---|---|---|
| main.py:259 | The lookup host is the last piece of the left-to-right split on `//`, up to its first `/` | `http://evil.example/?u=http://bank.example` looks up `bank.example` | The host of the URL itself, after the first `//` (`evil.example`) | not executed | `Urls.HostAsWrittenFollowsEmbeddedUrl` | `Urls.HostOfAuthority` |
