/**
 * `SMSPhishingDetector.detect_sms_phishing`: extraction, per-URL evidence,
 * brand search, the detection prompt, the detection itself and the
 * plain-language explanation, in that order.
 */
module Detector {
  import opened Wrappers
  import opened Text
  import opened OrderedDict
  import opened Evidence
  import opened UrlAnalysis
  import opened DetectionPrompt
  import opened Verdicts

  /**
   * The three language-model calls, as functions of the prompt they are
   * sent (`None` when the call raises), and the JSON parsers of the cleaned
   * replies (`None` when parsing raises).
   */
  datatype Models = Models(
    extract: string -> Option<string>,
    detect: string -> Option<string>,
    explain: string -> Option<string>,
    parseExtraction: string -> Option<Extraction>,
    parseVerdict: string -> Option<Verdict>)

  /** The fixed prompt texts of the extraction, detection and explanation calls. */
  datatype Templates = Templates(extraction: string, detection: string, explanation: string)

  /**
   * What the detection writes to its analysis file besides the SMS: the
   * analysis record, 'detect_result', 'user_friendly_output' and
   * 'detection_prompt'; and the value it returns.
   */
  datatype Report = Report(analysis: Analysis, verdict: Verdict, explanation: string, prompt: string, returned: Value)

  /**
   * Line 64 reads 'is_URL' with `[]`, and 'URLs' too when 'is_URL' holds:
   * a reply lacking the key read raises before any URL is examined.
   */
  predicate RaisesEarly(x: Extraction) {
    x.isUrl.None? || (x.isUrl == Some(true) && x.urls.None?)
  }

  /**
   * The seed the rest of the run works with. A key that is present keeps its
   * value. A key that is missing without raising is read later only by the
   * prompt's `.get`, which finds what the defaults here give: a false
   * 'is_brand', and a 'URLs' or 'brands' the prompt never reaches.
   */
  function SeedFrom(x: Extraction): (seed: Seed)
    requires !RaisesEarly(x)
    ensures seed.isUrl == x.isUrl.value
    ensures x.urls.Some? ==> seed.urls == x.urls.value
    ensures x.isBrand.Some? ==> seed.isBrand == x.isBrand.value
    ensures x.brands.Some? ==> seed.brands == x.brands.value
    ensures x.isBrand.None? ==> !seed.isBrand
    ensures x.urls.None? ==> !seed.isUrl
  {
    Seed(x.isUrl.value, x.urls.GetOr(NonList), x.isBrand.GetOr(false), x.brands.GetOr(Items([])))
  }

  /** Whether the URLs of the seed are examined: 'is_URL' holds and 'URLs' is a list. */
  predicate ExaminesUrls(seed: Seed) {
    seed.isUrl && seed.urls.Items?
  }

  /** The 'brand_search' every URL record ends up with. */
  function BrandField(f: Fetchers, cfg: Config, seed: Seed): Field<Dict<BrandEntry>> {
    if cfg.brandSearch && seed.isBrand then Val(BrandMap(f, Elements(seed.brands))) else Absent
  }

  /**
   * The analysis record the prompt is built from. Unless the URLs are
   * examined it is the seed itself; otherwise 'URLs' holds one record per
   * URL, keyed 0..n-1, each the URL's evidence with the brand map attached
   * when brand search is on and the SMS names a brand.
   */
  function AnalysisAfter(f: Fetchers, cfg: Config, dir: string, files: set<string>, seed: Seed): (a: Analysis)
    ensures a.isUrl == seed.isUrl && a.isBrand == seed.isBrand && a.brands == seed.brands
    ensures !ExaminesUrls(seed) ==> a == AnalysisOf(seed)
    ensures ExaminesUrls(seed) ==>
      && a.urls.Analyzed?
      && Enumerated(a.urls.entries)
      && |a.urls.entries| == |seed.urls.items|
      && forall i :: 0 <= i < |seed.urls.items| ==>
           a.urls.entries[i].1 == UrlEvidenceFor(f, cfg, dir, files, i, seed.urls.items[i]).0.(brandSearch := BrandField(f, cfg, seed))
    ensures HasUrls(a) ==> a.urls.Analyzed?
  {
    if ExaminesUrls(seed) then
      var urls := seed.urls.items;
      var entries := seq(|urls|, i requires 0 <= i < |urls| =>
        (i as nat, UrlEvidenceFor(f, cfg, dir, files, i, urls[i]).0.(brandSearch := BrandField(f, cfg, seed))));
      Analysis(seed.isUrl, Analyzed(entries), seed.isBrand, seed.brands)
    else
      AnalysisOf(seed)
  }

  /**
   * Lines 77-78 read 'is_brand' with `[]` when brand search is on, and
   * 'brands' too when 'is_brand' holds. Both run after the URLs have been
   * examined, so a reply lacking the key read raises after the screenshots
   * have been written.
   */
  predicate RaisesLate(cfg: Config, x: Extraction) {
    && !RaisesEarly(x)
    && ExaminesUrls(SeedFrom(x))
    && cfg.brandSearch
    && (x.isBrand.None? || (x.isBrand == Some(true) && x.brands.None?))
  }

  /** The screenshot files examining the URLs of the seed writes. */
  function Screenshots(f: Fetchers, cfg: Config, dir: string, files: set<string>, seed: Seed): set<string> {
    if ExaminesUrls(seed) then Recorded(AnalysisAfter(f, cfg, dir, files, seed).urls.entries) else {}
  }

  /** Attaching the brand map changes no recorded screenshot. */
  lemma {:induction false} RecordedIgnoresBrandSearch(d: Dict<UrlEvidence>, d': Dict<UrlEvidence>)
    requires |d| == |d'|
    requires forall i :: 0 <= i < |d| ==> d'[i].1.screenshotPath == d[i].1.screenshotPath
    ensures Recorded(d') == Recorded(d)
    decreases |d|
  {
    if |d| > 0 {
      RecordedIgnoresBrandSearch(d[..|d| - 1], d'[..|d| - 1]);
    }
  }

  /**
   * Step 2 of `detect_sms_phishing`, with the key reads that may raise
   * (`None`). When 'is_URL' holds and 'URLs' is not the sentinel, the URL
   * list is replaced by the evidence map and, with brand search on and a
   * brand named, the brand map is attached to every record. The screenshots
   * stay on disk whether or not a later key read raises.
   */
  method ExamineSeed(f: Fetchers, cfg: Config, dir: string, files: set<string>, x: Extraction)
    returns (analysis: Option<Analysis>, filesAfter: set<string>)
    ensures analysis.None? <==> RaisesEarly(x) || RaisesLate(cfg, x)
    ensures RaisesEarly(x) ==> filesAfter == files
    ensures !RaisesEarly(x) ==> filesAfter == files + Screenshots(f, cfg, dir, files, SeedFrom(x))
    ensures analysis.Some? ==> analysis.value == AnalysisAfter(f, cfg, dir, files, SeedFrom(x))
  {
    filesAfter := files;
    if x.isUrl.None? || (x.isUrl.value && x.urls.None?) {
      return None, files;
    }
    var seed := SeedFrom(x);
    analysis := Some(AnalysisOf(seed));
    if seed.isUrl && seed.urls != NonList {
      var urlAnalysis, after := AnalyzeUrls(f, cfg, dir, seed.urls.items, files);
      filesAfter := after;
      ExaminedScreenshots(f, cfg, dir, files, seed, urlAnalysis);
      ghost var examined := urlAnalysis;
      if cfg.brandSearch {
        if x.isBrand.None? {
          return None, filesAfter;
        }
        if x.isBrand.value {
          if x.brands.None? {
            return None, filesAfter;
          }
          var brandAnalysis := SearchBrandDomains(f, Elements(seed.brands));
          EnumeratedValid(urlAnalysis);
          urlAnalysis := AttachBrandSearch(urlAnalysis, brandAnalysis);
        }
      }
      KeysEnumerated(examined, urlAnalysis);
      ExaminedAnalysis(f, cfg, dir, files, seed, urlAnalysis);
      analysis := Some(AnalysisOf(seed).(urls := Analyzed(urlAnalysis)));
    }
  }

  /** The screenshots the URL loop records are those of the analysis the run goes on with. */
  lemma ExaminedScreenshots(f: Fetchers, cfg: Config, dir: string, files: set<string>, seed: Seed, d: Dict<UrlEvidence>)
    requires ExaminesUrls(seed) && |d| == |seed.urls.items|
    requires forall i :: 0 <= i < |d| ==> d[i].1 == UrlEvidenceFor(f, cfg, dir, files, i, seed.urls.items[i]).0
    ensures Recorded(d) == Screenshots(f, cfg, dir, files, seed)
  {
    var entries := AnalysisAfter(f, cfg, dir, files, seed).urls.entries;
    RecordedIgnoresBrandSearch(d, entries);
  }

  /**
   * The defaults `SeedFrom` puts in place of missing keys never reach the
   * prompt: a missing 'URLs' leaves the prompt at the no-URL line, and a
   * missing 'is_brand' or 'brands' leaves every URL record without a brand
   * block.
   */
  lemma DefaultsUnread(f: Fetchers, cfg: Config, dir: string, files: set<string>, x: Extraction)
    requires !RaisesEarly(x) && !RaisesLate(cfg, x)
    ensures var a := AnalysisAfter(f, cfg, dir, files, SeedFrom(x));
      && (x.urls.None? ==> !HasUrls(a))
      && ((x.isBrand.None? || x.brands.None?) && a.urls.Analyzed? ==>
            forall i :: 0 <= i < |a.urls.entries| ==> !HasBrandBlock(a.urls.entries[i].1, a))
  {
    var seed := SeedFrom(x);
    var a := AnalysisAfter(f, cfg, dir, files, seed);
    if (x.isBrand.None? || x.brands.None?) && a.urls.Analyzed? {
      assert ExaminesUrls(seed);
      assert BrandField(f, cfg, seed) == Absent || !seed.isBrand;
    }
  }

  /** A dictionary with the keys of an enumerated one is enumerated. */
  lemma KeysEnumerated(d: Dict<UrlEvidence>, d': Dict<UrlEvidence>)
    requires Enumerated(d) && Keys(d') == Keys(d)
    ensures Enumerated(d')
  {
    forall i | 0 <= i < |d'| ensures d'[i].0 == i {
      assert Keys(d')[i] == Keys(d)[i];
    }
  }

  /** The evidence records, enumerated and each with its brand field, make up `AnalysisAfter`. */
  lemma ExaminedAnalysis(f: Fetchers, cfg: Config, dir: string, files: set<string>, seed: Seed, d: Dict<UrlEvidence>)
    requires ExaminesUrls(seed) && Enumerated(d) && |d| == |seed.urls.items|
    requires forall i :: 0 <= i < |d| ==>
      d[i].1 == UrlEvidenceFor(f, cfg, dir, files, i, seed.urls.items[i]).0.(brandSearch := BrandField(f, cfg, seed))
    ensures AnalysisOf(seed).(urls := Analyzed(d)) == AnalysisAfter(f, cfg, dir, files, seed)
  {
    var expected := AnalysisAfter(f, cfg, dir, files, seed).urls.entries;
    assert d == expected;
  }

  /**
   * `detect_sms_phishing`. `None` stands for an exception it lets through:
   * the extraction call or parse failing, or a key read of step 2 failing.
   * Otherwise the report of the run. The files are those of the output
   * directory, before and after.
   */
  method DetectSmsPhishing(sms: string, dir: string, cfg: Config, f: Fetchers, m: Models, t: Templates,
                           show: Render, showVerdict: Verdict -> string, files: set<string>)
    returns (r: Option<Report>, filesAfter: set<string>)
    ensures var x := ExtractUrlsAndBrands(m.extract(ExtractionPrompt(t.extraction, sms)), m.parseExtraction);
      && (r.None? <==> x.None? || RaisesEarly(x.value) || RaisesLate(cfg, x.value))
      && (x.None? || RaisesEarly(x.value) ==> filesAfter == files)
      && (x.Some? && !RaisesEarly(x.value) ==> filesAfter == files + Screenshots(f, cfg, dir, files, SeedFrom(x.value)))
      && (r.Some? ==>
            var rep := r.value;
            && rep.analysis == AnalysisAfter(f, cfg, dir, files, SeedFrom(x.value))
            && rep.prompt == Prompt(t.detection, sms, rep.analysis, show)
            && rep.verdict == FinalDetection(m.detect(rep.prompt), m.parseVerdict)
            && rep.explanation == UserFriendlyOutput(m.explain(ExplanationPrompt(t.explanation, sms, showVerdict(rep.verdict))))
            && rep.returned == Category(rep.verdict))
  {
    var initial := ExtractUrlsAndBrands(m.extract(ExtractionPrompt(t.extraction, sms)), m.parseExtraction);
    if initial.None? {
      return None, files;
    }
    var examined;
    examined, filesAfter := ExamineSeed(f, cfg, dir, files, initial.value);
    if examined.None? {
      return None, filesAfter;
    }
    var analysis := examined.value;
    var prompt := BuildDetectionPrompt(t.detection, sms, analysis, show);
    var verdict := FinalDetection(m.detect(prompt), m.parseVerdict);
    var explanation := UserFriendlyOutput(m.explain(ExplanationPrompt(t.explanation, sms, showVerdict(verdict))));
    r := Some(Report(analysis, verdict, explanation, prompt, Category(verdict)));
  }

  /**
   * The brand block shows, for the `j`-th brand, the links the search
   * returned for that brand, and the empty list past the last brand.
   */
  lemma BrandResultsFromSearch(f: Fetchers, brands: seq<string>, j: nat)
    ensures BrandDomains(BrandMap(f, brands), j) == if j < |brands| then f.search(j, brands[j]) else []
  {
    var m := BrandMap(f, brands);
    if j < |brands| {
      GetEnumerated(m, j);
    } else {
      forall i | 0 <= i < |m| ensures Keys(m)[i] != j {
        assert Keys(m)[i] == m[i].0 == i;
      }
    }
  }

  /**
   * The detection prompt ends with the no-URL line after the SMS line
   * exactly when the URLs are not examined.
   */
  lemma NoUrlLineUnlessExamined(f: Fetchers, cfg: Config, dir: string, files: set<string>, seed: Seed,
                                template: string, sms: string, show: Render)
    ensures var a := AnalysisAfter(f, cfg, dir, files, seed);
      Prompt(template, sms, a, show) == Header(template, sms) + NoUrlLine <==> !ExaminesUrls(seed)
  {
    var a := AnalysisAfter(f, cfg, dir, files, seed);
    assert HasUrls(a) <==> ExaminesUrls(seed);
    PromptNoUrlLine(template, sms, a, show);
  }

  /** All five evidence toggles are off. */
  predicate AllTogglesOff(cfg: Config) {
    !cfg.redirectChain && !cfg.brandSearch && !cfg.screenshot && !cfg.htmlContent && !cfg.domainInfo
  }

  /** With every evidence toggle off, no URL record has evidence lines or a brand block. */
  lemma BareRecords(f: Fetchers, cfg: Config, dir: string, files: set<string>, seed: Seed, show: Render)
    requires AllTogglesOff(cfg) && ExaminesUrls(seed)
    ensures var a := AnalysisAfter(f, cfg, dir, files, seed);
      forall i :: 0 <= i < |a.urls.entries| ==>
        && a.urls.entries[i].0 == i
        && a.urls.entries[i].1.url == seed.urls.items[i]
        && EvidenceLines(a.urls.entries[i].1, show) == ""
        && !HasBrandBlock(a.urls.entries[i].1, a)
  {
    var a := AnalysisAfter(f, cfg, dir, files, seed);
    forall i | 0 <= i < |a.urls.entries|
      ensures EvidenceLines(a.urls.entries[i].1, show) == "" && !HasBrandBlock(a.urls.entries[i].1, a)
    {
      EvidenceLinesEmpty(a.urls.entries[i].1, show);
    }
  }

  /**
   * With every evidence toggle off, the section of each URL is its URL line
   * alone: the prompt lists the URLs in order and nothing else.
   */
  lemma PromptWithTogglesOff(f: Fetchers, cfg: Config, dir: string, files: set<string>, seed: Seed,
                             template: string, sms: string, show: Render)
    requires AllTogglesOff(cfg) && ExaminesUrls(seed)
    ensures var n := |seed.urls.items|;
      Prompt(template, sms, AnalysisAfter(f, cfg, dir, files, seed), show)
        == Header(template, sms) + ((if n > 1 then UrlCountLine(n) else "") + UrlLines(n > 1, seed.urls.items))
  {
    var a := AnalysisAfter(f, cfg, dir, files, seed);
    var n := |seed.urls.items|;
    BareRecords(f, cfg, dir, files, seed, show);
    BareSections(n > 1, a.urls.entries, a, show, seed.urls.items, n);
    assert a.urls.entries[..n] == a.urls.entries;
    assert seed.urls.items[..n] == seed.urls.items;
  }
}
