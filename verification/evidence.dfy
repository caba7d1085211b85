/**
 * The records the detector passes between its stages: the seed that the
 * extraction reply is parsed into, the per-URL evidence record, the brand
 * search entries, the five feature toggles, and the outside services every
 * fetcher consults, given as functions of what they are asked.
 */
module Evidence {
  import opened Wrappers
  import opened OrderedDict

  /**
   * One key of an evidence record: left out of the record (its toggle is
   * off), holding the failure sentinel string "non", or holding a value.
   */
  datatype Field<T> = Absent | Non | Val(value: T)

  /** The failure sentinel the fetchers store instead of a value. */
  const Sentinel: string := "non"

  /** A string field the prompt shows: present and not the sentinel string. */
  predicate Shown(f: Field<string>) {
    f.Val? && f.value != Sentinel
  }

  /** One response of a redirect-following request: where it came from and its status. */
  datatype Response = Response(url: string, statusCode: int)

  /** A redirect-following HEAD request: the redirect responses in order, then the last one. */
  datatype HeadResult = HeadResult(history: seq<Response>, final: Response)

  /** One entry of the brand map: the brand and the links its web search returned. */
  datatype BrandEntry = BrandEntry(brandName: string, brandDomain: seq<string>)

  /**
   * The evidence dict for one URL, one constructor argument per key:
   * 'URL', 'final_URL', 'redirect_chain', 'URL_content', 'html_summary',
   * 'domain_info', 'screenshot_path', 'Image_content', 'brand_search'.
   */
  datatype UrlEvidence = UrlEvidence(
    url: string,
    finalUrl: string,
    redirectChain: Field<seq<(string, int)>>,
    urlContent: Field<string>,
    htmlSummary: Field<string>,
    domainInfo: Field<string>,
    screenshotPath: Field<string>,
    imageContent: Field<string>,
    brandSearch: Field<Dict<BrandEntry>>)

  /** The 'URLs' or 'brands' value of the extraction reply: the string "non" or a list. */
  datatype Listed = NonList | Items(items: seq<string>)

  /** What a Python `for` over the value visits: the string "non" yields its characters. */
  function Elements(l: Listed): (r: seq<string>)
    ensures l.Items? ==> r == l.items
    ensures l.NonList? ==> |r| == |Sentinel| && forall k :: 0 <= k < |r| ==> r[k] == [Sentinel[k]]
  {
    match l
    case NonList => ["n", "o", "n"]
    case Items(xs) => xs
  }

  /**
   * The extraction reply as `json.loads` returns it: the keys 'is_URL',
   * 'URLs', 'is_brand' and 'brands', each `None` when the object lacks it.
   */
  datatype Extraction = Extraction(isUrl: Option<bool>, urls: Option<Listed>, isBrand: Option<bool>, brands: Option<Listed>)

  /** The four keys of the extraction reply as the pipeline works with them. */
  datatype Seed = Seed(isUrl: bool, urls: Listed, isBrand: bool, brands: Listed)

  /** The 'URLs' value once the pipeline may have replaced the list by the evidence map. */
  datatype UrlsValue = NonUrls | UrlList(items: seq<string>) | Analyzed(entries: Dict<UrlEvidence>)

  /** The analysis record the prompt is built from. */
  datatype Analysis = Analysis(isUrl: bool, urls: UrlsValue, isBrand: bool, brands: Listed)

  /** The analysis record before any URL has been examined. */
  function AnalysisOf(seed: Seed): (a: Analysis)
    ensures a.isUrl == seed.isUrl && a.isBrand == seed.isBrand && a.brands == seed.brands
    ensures a.urls.NonUrls? <==> seed.urls.NonList?
    ensures seed.urls.Items? ==> a.urls == UrlList(seed.urls.items)
  {
    Analysis(seed.isUrl, match seed.urls case NonList => NonUrls case Items(xs) => UrlList(xs),
             seed.isBrand, seed.brands)
  }

  /** The five `enable_*` switches of the entry point. */
  datatype Config = Config(
    redirectChain: bool,
    brandSearch: bool,
    screenshot: bool,
    htmlContent: bool,
    domainInfo: bool)

  /**
   * The services the fetchers consult. Each is asked with the index of the
   * URL or brand it works for, so that two calls about equal strings may
   * answer differently. `None` stands for the exception the fetcher catches.
   *  - expand: the URL a redirect-following HEAD request ends at;
   *  - head: the full answer of the HEAD request used for the redirect chain;
   *  - reader: the page text the reader service returns for a reader URL;
   *  - summarize: the 'summary' of the model's reply about a page text;
   *  - whois: `str()` of the registration record of a host;
   *  - capture: the crawler run on a URL and a file path, true when it exits normally;
   *  - describe: the vision model's description of a screenshot file;
   *  - search: the result links of a web search for a brand ([] on failure).
   */
  datatype Fetchers = Fetchers(
    expand: (nat, string) -> Option<string>,
    head: (nat, string) -> Option<HeadResult>,
    reader: (nat, string) -> Option<string>,
    summarize: (nat, string) -> Option<string>,
    whois: (nat, string) -> Option<string>,
    capture: (nat, string, string) -> bool,
    describe: (nat, string) -> Option<string>,
    search: (nat, string) -> seq<string>)
}
