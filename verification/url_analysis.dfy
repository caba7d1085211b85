/**
 * The per-URL evidence orchestration: `_analyze_urls` and the fetchers it
 * calls, the brand search `_search_brand_domains`, and the step of the entry
 * point that attaches the brand map to every URL record.
 */
module UrlAnalysis {
  import opened Wrappers
  import opened Text
  import opened Urls
  import opened OrderedDict
  import opened Evidence
  import opened Redirects
  import opened Paths

  /** `final_url or normalized_url`: the expanded URL unless expansion failed or gave "". */
  function FinalUrl(expanded: Option<string>, normalized: string): (r: string)
    ensures expanded.Some? && expanded.value != "" ==> r == expanded.value
    ensures expanded.None? || expanded.value == "" ==> r == normalized
  {
    match expanded
    case Some(u) => if u != "" then u else normalized
    case None => normalized
  }

  /** The reader service is asked for `https://r.jina.ai/<url>`. */
  const ReaderPrefix: string := "https://r.jina.ai/"

  /** Stored as both content and summary when the reader request fails. */
  const NoInformation: string := "There is no information known about the URL. The URL might be invalid or expired."

  /** Stored as the summary when summarising fails. */
  const NoSummary: string := "Could not analyze content"

  /**
   * `_analyze_html_content(url)`: the page text cut to its first 10000
   * characters and the summary of exactly that text, or the fixed
   * no-information text twice when the reader request fails.
   */
  function HtmlEvidence(f: Fetchers, i: nat, url: string): (r: (string, string))
    ensures |r.0| <= MaxContentLength
    ensures f.reader(i, ReaderPrefix + url).None? ==> r == (NoInformation, NoInformation)
    ensures f.reader(i, ReaderPrefix + url).Some? ==>
      var text := f.reader(i, ReaderPrefix + url).value;
      StartsWith(text, r.0) &&
      |r.0| == (if |text| > MaxContentLength then MaxContentLength else |text|) &&
      (f.summarize(i, r.0).Some? ==> r.1 == f.summarize(i, r.0).value) &&
      (f.summarize(i, r.0).None? ==> r.1 == NoSummary)
  {
    match f.reader(i, ReaderPrefix + url)
    case None => (NoInformation, NoInformation)
    case Some(text) =>
      var content := TruncateContent(text);
      (content, f.summarize(i, content).GetOr(NoSummary))
  }

  /**
   * `_get_domain_info(url)`: the registration record of the URL's host, or
   * the sentinel when the lookup fails. The host is taken after the first
   * `//` (see `Urls.Host`).
   */
  function DomainInfo(f: Fetchers, i: nat, url: string): (r: Field<string>)
    ensures r != Absent
    ensures r == Non <==> f.whois(i, Host(url)).None?
    ensures r.Val? ==> r.value == f.whois(i, Host(url)).value
  {
    match f.whois(i, Host(url))
    case None => Non
    case Some(info) => Val(info)
  }

  /**
   * `_analyze_screenshot(url, output_dir, idx)` over the set of files that
   * exist: the crawler runs only when the screenshot file is missing, and a
   * successful run creates it; a failed run leaves the sentinel in both
   * fields; otherwise the vision model describes the file (sentinel on
   * failure). Result: (screenshot path, description, files afterwards).
   */
  function ScreenshotStep(f: Fetchers, files: set<string>, dir: string, i: nat, url: string)
    : (r: (Field<string>, Field<string>, set<string>))
    ensures var path := ScreenshotPath(dir, i);
      && (path in files ==> r.2 == files && r.0 == Val(path))
      && (path !in files ==> r.2 == (if f.capture(i, url, path) then files + {path} else files))
      && (r.0 == Non <==> path !in files && !f.capture(i, url, path))
      && (r.0.Val? ==> r.0.value == path && path in r.2)
      && (r.0 == Non ==> r.1 == Non)
      && (r.0.Val? ==> (r.1 == Non <==> f.describe(i, path).None?))
      && (r.1.Val? ==> f.describe(i, path).Some? && r.1.value == f.describe(i, path).value)
      && r.0 != Absent && r.1 != Absent
  {
    var path := ScreenshotPath(dir, i);
    if path !in files && !f.capture(i, url, path) then (Non, Non, files)
    else
      var after := files + {path};
      var description := match f.describe(i, path) case None => Non case Some(text) => Val(text);
      (Val(path), description, after)
  }

  /**
   * The evidence record of the `i`-th URL of the SMS, and the files that
   * exist afterwards, as `_analyze_urls` builds it. The redirect chain and
   * the registration record are looked up for the normalised URL; the page
   * text and the screenshot are taken of the final URL.
   */
  function UrlEvidenceFor(f: Fetchers, cfg: Config, dir: string, files: set<string>, i: nat, url: string)
    : (r: (UrlEvidence, set<string>))
    ensures var e := r.0; var normalized := NormalizeUrl(url);
      && e.url == url
      && e.finalUrl == FinalUrl(f.expand(i, normalized), normalized)
      && (e.redirectChain != Absent <==> cfg.redirectChain)
      && (e.urlContent != Absent <==> cfg.htmlContent)
      && (e.htmlSummary != Absent <==> cfg.htmlContent)
      && (e.domainInfo != Absent <==> cfg.domainInfo)
      && (e.screenshotPath != Absent <==> cfg.screenshot)
      && (e.imageContent != Absent <==> cfg.screenshot)
      && e.brandSearch == Absent
      && (cfg.redirectChain ==> e.redirectChain == RedirectChain(f.head(i, normalized)))
      && (cfg.htmlContent ==>
            e.urlContent.Val? && e.htmlSummary.Val? &&
            (e.urlContent.value, e.htmlSummary.value) == HtmlEvidence(f, i, e.finalUrl))
      && (cfg.domainInfo ==> e.domainInfo == DomainInfo(f, i, normalized))
      && (cfg.screenshot ==>
            var shot := ScreenshotStep(f, files, dir, i, e.finalUrl);
            e.screenshotPath == shot.0 && e.imageContent == shot.1 && r.1 == shot.2)
      && (!cfg.screenshot ==> r.1 == files)
  {
    var normalized := NormalizeUrl(url);
    var final := FinalUrl(f.expand(i, normalized), normalized);
    var html := HtmlEvidence(f, i, final);
    var shot := ScreenshotStep(f, files, dir, i, final);
    (UrlEvidence(
      url,
      final,
      if cfg.redirectChain then RedirectChain(f.head(i, normalized)) else Absent,
      if cfg.htmlContent then Val(html.0) else Absent,
      if cfg.htmlContent then Val(html.1) else Absent,
      if cfg.domainInfo then DomainInfo(f, i, normalized) else Absent,
      if cfg.screenshot then shot.0 else Absent,
      if cfg.screenshot then shot.1 else Absent,
      Absent),
     if cfg.screenshot then shot.2 else files)
  }

  /** Of all the files that exist, the evidence of URL `i` depends only on its own screenshot. */
  lemma EvidenceSeesOwnScreenshot(f: Fetchers, cfg: Config, dir: string, a: set<string>, b: set<string>, i: nat, url: string)
    requires ScreenshotPath(dir, i) in a <==> ScreenshotPath(dir, i) in b
    ensures UrlEvidenceFor(f, cfg, dir, a, i, url).0 == UrlEvidenceFor(f, cfg, dir, b, i, url).0
  {
  }

  /** The files after examining a URL are the earlier ones plus the screenshot its record names, if any. */
  lemma EvidenceAddsOwnScreenshot(f: Fetchers, cfg: Config, dir: string, files: set<string>, i: nat, url: string)
    ensures var r := UrlEvidenceFor(f, cfg, dir, files, i, url);
      r.1 == files + (if r.0.screenshotPath.Val? then {r.0.screenshotPath.value} else {})
  {
  }

  /** The screenshot paths recorded in an evidence map, in key order. */
  function Recorded(d: Dict<UrlEvidence>): set<string>
    decreases |d|
  {
    if |d| == 0 then {}
    else
      var last := d[|d| - 1].1.screenshotPath;
      Recorded(d[..|d| - 1]) + (if last.Val? then {last.value} else {})
  }

  /**
   * The body of `_analyze_urls`' loop for the URL at position `idx`: the
   * record is filled key by key, each fetcher only when its toggle is on.
   */
  method AnalyzeUrl(f: Fetchers, cfg: Config, dir: string, files: set<string>, idx: nat, url: string)
    returns (entry: UrlEvidence, filesAfter: set<string>)
    ensures (entry, filesAfter) == UrlEvidenceFor(f, cfg, dir, files, idx, url)
  {
    var normalized := NormalizeUrl(url);
    var final := FinalUrl(f.expand(idx, normalized), normalized);
    entry := UrlEvidence(url, final, Absent, Absent, Absent, Absent, Absent, Absent, Absent);
    filesAfter := files;
    if cfg.redirectChain {
      var chain := GetRedirectChain(f.head(idx, normalized));
      entry := entry.(redirectChain := chain);
    }
    if cfg.htmlContent {
      var (content, summary) := HtmlEvidence(f, idx, final);
      entry := entry.(urlContent := Val(content), htmlSummary := Val(summary));
    }
    if cfg.domainInfo {
      entry := entry.(domainInfo := DomainInfo(f, idx, normalized));
    }
    if cfg.screenshot {
      var (path, description, after) := ScreenshotStep(f, files, dir, idx, final);
      entry := entry.(screenshotPath := path, imageContent := description);
      filesAfter := after;
    }
  }

  /** Appending a record adds its screenshot, if it has one, to the recorded ones. */
  lemma RecordedAppend(d: Dict<UrlEvidence>, k: nat, e: UrlEvidence)
    ensures Recorded(d + [(k, e)]) == Recorded(d) + (if e.screenshotPath.Val? then {e.screenshotPath.value} else {})
  {
    assert (d + [(k, e)])[..|d|] == d;
  }

  /**
   * What `_analyze_urls` has built after its first |d| URLs: keys 0..|d|-1,
   * each record the evidence of its URL as seen with the original files,
   * the files grown by exactly the recorded screenshots, none of which
   * belongs to a later URL.
   */
  ghost predicate AnalyzedPrefix(f: Fetchers, cfg: Config, dir: string, urls: seq<string>, files: set<string>,
                                 d: Dict<UrlEvidence>, filesAfter: set<string>)
  {
    && Enumerated(d) && |d| <= |urls|
    && (forall i :: 0 <= i < |d| ==> d[i].1 == UrlEvidenceFor(f, cfg, dir, files, i, urls[i]).0)
    && filesAfter == files + Recorded(d)
    && (forall j: nat :: |d| <= j ==> ScreenshotPath(dir, j) !in Recorded(d))
  }

  /** One more iteration of `_analyze_urls` keeps `AnalyzedPrefix`. */
  lemma AnalyzeStep(f: Fetchers, cfg: Config, dir: string, urls: seq<string>, files: set<string>,
                    d: Dict<UrlEvidence>, filesAfter: set<string>, entry: UrlEvidence, after: set<string>)
    requires AnalyzedPrefix(f, cfg, dir, urls, files, d, filesAfter) && |d| < |urls|
    requires (entry, after) == UrlEvidenceFor(f, cfg, dir, filesAfter, |d|, urls[|d|])
    ensures AnalyzedPrefix(f, cfg, dir, urls, files, d + [(|d|, entry)], after)
  {
    var idx := |d|;
    assert ScreenshotPath(dir, idx) !in Recorded(d);
    StepEvidence(f, cfg, dir, files, filesAfter, idx, urls[idx]);
    StepRecords(f, cfg, dir, urls, files, d, entry);
    RecordedAppend(d, idx, entry);
    StepFresh(dir, d, entry);
  }

  /**
   * Examining URL `i` when the files differ from the original ones only in
   * files other than its screenshot: the record is the one seen with the
   * original files, and the files grow by its own screenshot at most.
   */
  lemma StepEvidence(f: Fetchers, cfg: Config, dir: string, files: set<string>, filesAfter: set<string>, i: nat, url: string)
    requires ScreenshotPath(dir, i) in files <==> ScreenshotPath(dir, i) in filesAfter
    ensures var r := UrlEvidenceFor(f, cfg, dir, filesAfter, i, url);
      && r.0 == UrlEvidenceFor(f, cfg, dir, files, i, url).0
      && r.1 == filesAfter + (if r.0.screenshotPath.Val? then {r.0.screenshotPath.value} else {})
      && (r.0.screenshotPath.Val? ==> r.0.screenshotPath.value == ScreenshotPath(dir, i))
  {
    EvidenceSeesOwnScreenshot(f, cfg, dir, files, filesAfter, i, url);
    EvidenceAddsOwnScreenshot(f, cfg, dir, filesAfter, i, url);
  }

  lemma StepRecords(f: Fetchers, cfg: Config, dir: string, urls: seq<string>, files: set<string>,
                    d: Dict<UrlEvidence>, entry: UrlEvidence)
    requires |d| < |urls|
    requires forall i :: 0 <= i < |d| ==> d[i].1 == UrlEvidenceFor(f, cfg, dir, files, i, urls[i]).0
    requires entry == UrlEvidenceFor(f, cfg, dir, files, |d|, urls[|d|]).0
    requires Enumerated(d)
    ensures Enumerated(d + [(|d|, entry)])
    ensures forall i :: 0 <= i < |d| + 1 ==> (d + [(|d|, entry)])[i].1 == UrlEvidenceFor(f, cfg, dir, files, i, urls[i]).0
  {
    assert forall i :: 0 <= i < |d| ==> (d + [(|d|, entry)])[i] == d[i];
    forall i | 0 <= i < |d| + 1
      ensures (d + [(|d|, entry)])[i].1 == UrlEvidenceFor(f, cfg, dir, files, i, urls[i]).0
    {
      if i < |d| {
        assert (d + [(|d|, entry)])[i] == d[i];
      }
    }
  }

  lemma StepFresh(dir: string, d: Dict<UrlEvidence>, entry: UrlEvidence)
    requires forall j: nat :: |d| <= j ==> ScreenshotPath(dir, j) !in Recorded(d)
    requires entry.screenshotPath.Val? ==> entry.screenshotPath.value == ScreenshotPath(dir, |d|)
    ensures forall j: nat :: |d| + 1 <= j ==> ScreenshotPath(dir, j) !in Recorded(d + [(|d|, entry)])
  {
    var added: set<string> := if entry.screenshotPath.Val? then {entry.screenshotPath.value} else {};
    assert added <= {ScreenshotPath(dir, |d|)};
    RecordedAppend(d, |d|, entry);
    forall j: nat | |d| + 1 <= j ensures ScreenshotPath(dir, j) !in Recorded(d) + added {
      OtherScreenshotPath(dir, |d|, j);
    }
  }

  lemma OtherScreenshotPath(dir: string, i: nat, j: nat)
    requires i != j
    ensures ScreenshotPath(dir, j) != ScreenshotPath(dir, i)
  {
    if ScreenshotPath(dir, j) == ScreenshotPath(dir, i) {
      ScreenshotPathInjective(dir, i, j);
    }
  }

  /**
   * `_analyze_urls`: one evidence record per URL, under keys 0..n-1 in
   * order; record `i` is the evidence of `urls[i]` as seen with the files
   * that existed before the call (each URL has its own screenshot file);
   * afterwards the files are the earlier ones plus every screenshot the
   * records name.
   */
  method AnalyzeUrls(f: Fetchers, cfg: Config, dir: string, urls: seq<string>, files: set<string>)
    returns (d: Dict<UrlEvidence>, filesAfter: set<string>)
    ensures Enumerated(d) && |d| == |urls|
    ensures forall i :: 0 <= i < |urls| ==> d[i].1 == UrlEvidenceFor(f, cfg, dir, files, i, urls[i]).0
    ensures filesAfter == files + Recorded(d)
  {
    d := [];
    filesAfter := files;
    for idx := 0 to |urls|
      invariant |d| == idx
      invariant AnalyzedPrefix(f, cfg, dir, urls, files, d, filesAfter)
    {
      var entry, after := AnalyzeUrl(f, cfg, dir, filesAfter, idx, urls[idx]);
      AnalyzeStep(f, cfg, dir, urls, files, d, filesAfter, entry, after);
      PutFresh(d, idx, entry);
      d := Put(d, idx, entry);
      filesAfter := after;
    }
  }

  /**
   * `_search_brand_domains`: one entry per brand, under keys 0..m-1 in
   * order, holding the brand and its search results.
   */
  method SearchBrandDomains(f: Fetchers, brands: seq<string>) returns (m: Dict<BrandEntry>)
    ensures m == BrandMap(f, brands)
  {
    m := [];
    ghost var all := BrandMap(f, brands);
    for idx := 0 to |brands|
      invariant m == all[..idx]
    {
      var entry := BrandEntry(brands[idx], f.search(idx, brands[idx]));
      assert idx !in Keys(m);
      PutFresh(m, idx, entry);
      m := Put(m, idx, entry);
      assert all[..idx + 1] == all[..idx] + [all[idx]];
    }
    assert all[..|brands|] == all;
  }

  /**
   * The brand map `_search_brand_domains` builds: keys 0..m-1 in order,
   * entry `i` holding brand `i` and the links its search returned.
   */
  function BrandMap(f: Fetchers, brands: seq<string>): (m: Dict<BrandEntry>)
    ensures Enumerated(m) && |m| == |brands|
    ensures forall i :: 0 <= i < |brands| ==> m[i].1 == BrandEntry(brands[i], f.search(i, brands[i]))
  {
    seq(|brands|, i requires 0 <= i < |brands| => (i as nat, BrandEntry(brands[i], f.search(i, brands[i]))))
  }

  /**
   * The attach loop of the entry point: every URL record receives the same
   * brand map under 'brand_search'; keys, order and every other field stay.
   */
  method AttachBrandSearch(d: Dict<UrlEvidence>, brands: Dict<BrandEntry>) returns (r: Dict<UrlEvidence>)
    requires Valid(d)
    ensures Keys(r) == Keys(d)
    ensures forall i :: 0 <= i < |d| ==> r[i].1 == d[i].1.(brandSearch := Val(brands))
  {
    r := d;
    var keys := Keys(d);
    for j := 0 to |keys|
      invariant |r| == |d|
      invariant forall i :: 0 <= i < |d| ==> r[i].0 == d[i].0
      invariant forall i :: 0 <= i < j ==> r[i].1 == d[i].1.(brandSearch := Val(brands))
      invariant forall i :: j <= i < |d| ==> r[i].1 == d[i].1
    {
      var key := keys[j];
      assert Valid(r);
      GetValid(r, j);
      var entry := Get(r, key).value;
      PutExisting(r, j, entry.(brandSearch := Val(brands)));
      r := Put(r, key, entry.(brandSearch := Val(brands)));
    }
    assert Keys(r) == Keys(d);
  }
}
