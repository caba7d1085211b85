/**
 * `_build_detection_prompt`: the text handed to the final detection model,
 * assembled from the template, the SMS and the analysis record.
 */
module DetectionPrompt {
  import opened Wrappers
  import opened Text
  import opened OrderedDict
  import opened Evidence

  /**
   * Python's `str()` of the lists the prompt interpolates: a redirect chain
   * (a list of (url, status) tuples) and a list of search result links.
   */
  datatype Render = Render(chain: seq<(string, int)> -> string, links: seq<string> -> string)

  /** The template, then the SMS line. */
  function Header(template: string, sms: string): string {
    template + "\n- SMS to be analyzed: " + sms + "\n"
  }

  const NoUrlLine: string := "- No URL in the SMS.\n"

  function UrlCountLine(n: nat): string {
    "- There are " + NatToString(n) + " URLs in the SMS.\n"
  }

  function IndexedUrlLine(key: nat, url: string): string {
    "- URL " + NatToString(key) + ": " + url + "\n"
  }

  function PlainUrlLine(url: string): string {
    "- URL: " + url + "\n"
  }

  /** The line that opens a URL's section: indexed by its key when there are several URLs. */
  function UrlLine(many: bool, key: nat, url: string): string {
    if many then IndexedUrlLine(key, url) else PlainUrlLine(url)
  }

  function ChainLine(e: UrlEvidence, show: Render): string
    requires e.redirectChain.Val?
  {
    "- Redirect Chain of " + e.url + ": " + show.chain(e.redirectChain.value) + "\n"
  }

  function SummaryLine(e: UrlEvidence): string
    requires e.htmlSummary.Val?
  {
    "- Html Content Summary of " + e.url + ": " + e.htmlSummary.value + "\n"
  }

  function DomainLine(e: UrlEvidence): string
    requires e.domainInfo.Val?
  {
    "- Domain Information of " + e.url + ": " + e.domainInfo.value + "\n"
  }

  function ScreenshotLine(e: UrlEvidence): string
    requires e.imageContent.Val?
  {
    "- Screenshot Description " + e.url + ": " + e.imageContent.value + "\n"
  }

  function ChainPart(e: UrlEvidence, show: Render): string {
    if e.redirectChain.Val? then ChainLine(e, show) else ""
  }

  function SummaryPart(e: UrlEvidence): string {
    if Shown(e.htmlSummary) then SummaryLine(e) else ""
  }

  function DomainPart(e: UrlEvidence): string {
    if Shown(e.domainInfo) then DomainLine(e) else ""
  }

  function ScreenshotPart(e: UrlEvidence): string {
    if Shown(e.imageContent) then ScreenshotLine(e) else ""
  }

  /**
   * The evidence lines of one URL, in the order redirect chain, page
   * summary, registration record, screenshot description; a field that is
   * absent or holds the sentinel contributes nothing.
   */
  function EvidenceLines(e: UrlEvidence, show: Render): string {
    ChainPart(e, show) + SummaryPart(e) + DomainPart(e) + ScreenshotPart(e)
  }

  /** A record contributes no evidence line exactly when none of its four fields is shown. */
  lemma EvidenceLinesEmpty(e: UrlEvidence, show: Render)
    ensures EvidenceLines(e, show) == "" <==>
      !e.redirectChain.Val? && !Shown(e.htmlSummary) && !Shown(e.domainInfo) && !Shown(e.imageContent)
  {
    if e.redirectChain.Val? {
      assert ChainPart(e, show)[0] == '-';
    }
    if Shown(e.htmlSummary) {
      assert SummaryPart(e)[0] == '-';
    }
    if Shown(e.domainInfo) {
      assert DomainPart(e)[0] == '-';
    }
    if Shown(e.imageContent) {
      assert ScreenshotPart(e)[0] == '-';
    }
  }

  function BrandCountLine(k: nat): string {
    "- There are " + NatToString(k) + " brands referred in the SMS.\n"
  }

  /** `url_data['brand_search'].get(j, {}).get('brand_domain', [])`. */
  function BrandDomains(search: Dict<BrandEntry>, j: nat): (r: seq<string>)
    ensures Get(search, j).None? ==> r == []
    ensures Get(search, j).Some? ==> r == Get(search, j).value.brandDomain
  {
    match Get(search, j)
    case None => []
    case Some(entry) => entry.brandDomain
  }

  function BrandNameLine(j: nat, brand: string): string {
    "- Brand " + NatToString(j) + ": " + brand + "\n"
  }

  function BrandResultsLine(domains: seq<string>, show: Render): string {
    "- The top five results from a Google search of the brand name: " + show.links(domains) + "\n"
  }

  /** The two lines about the `j`-th brand: its name, then its search results. */
  function BrandLine(j: nat, brand: string, search: Dict<BrandEntry>, show: Render): string {
    BrandNameLine(j, brand) + BrandResultsLine(BrandDomains(search, j), show)
  }

  /** The lines of the brands, in their order, each with its position. */
  function BrandLines(brands: seq<string>, search: Dict<BrandEntry>, show: Render): string
    decreases |brands|
  {
    if |brands| == 0 then ""
    else BrandLines(brands[..|brands| - 1], search, show) + BrandLine(|brands| - 1, brands[|brands| - 1], search, show)
  }

  /** The brand block: a count line only for more than one brand, then the brand lines. */
  function BrandBlock(brands: seq<string>, search: Dict<BrandEntry>, show: Render): string {
    (if |brands| > 1 then BrandCountLine(|brands|) else "") + BrandLines(brands, search, show)
  }

  /**
   * No brand gives no block, one brand gives its two lines alone, and more
   * than one brand puts the count line first.
   */
  lemma BrandBlockShape(brands: seq<string>, search: Dict<BrandEntry>, show: Render)
    ensures |brands| == 0 ==> BrandBlock(brands, search, show) == ""
    ensures |brands| == 1 ==> BrandBlock(brands, search, show) == BrandLine(0, brands[0], search, show)
    ensures |brands| > 1 ==> StartsWith(BrandBlock(brands, search, show), BrandCountLine(|brands|))
  {
    if |brands| == 1 {
      var line := BrandLine(0, brands[0], search, show);
      assert brands[..|brands| - 1] == [];
      assert BrandLines(brands[..|brands| - 1], search, show) == "";
      assert BrandLines(brands, search, show) == "" + line;
      assert "" + line == line;
      assert BrandBlock(brands, search, show) == "" + line;
    } else if |brands| > 1 {
      StartsWithAppend(BrandCountLine(|brands|), BrandLines(brands, search, show));
    }
  }

  /** Whether a URL's section ends with the brand block. */
  predicate HasBrandBlock(e: UrlEvidence, a: Analysis) {
    e.brandSearch.Val? && a.isBrand
  }

  function BrandPart(e: UrlEvidence, a: Analysis, show: Render): string {
    if HasBrandBlock(e, a) then BrandBlock(Elements(a.brands), e.brandSearch.value, show) else ""
  }

  /** The section of one URL: its line, its evidence lines, then the brand block if any. */
  function Section(many: bool, key: nat, e: UrlEvidence, a: Analysis, show: Render): string {
    UrlLine(many, key, e.url) + EvidenceLines(e, show) + BrandPart(e, a, show)
  }

  /**
   * A section opens with its URL line, and is that line alone when the
   * record has no evidence line and no brand block.
   */
  lemma SectionShape(many: bool, key: nat, e: UrlEvidence, a: Analysis, show: Render)
    ensures StartsWith(Section(many, key, e, a, show), UrlLine(many, key, e.url))
    ensures EvidenceLines(e, show) == "" && !HasBrandBlock(e, a) ==>
      Section(many, key, e, a, show) == UrlLine(many, key, e.url)
  {
    var line := UrlLine(many, key, e.url);
    Assoc3(line, EvidenceLines(e, show), BrandPart(e, a, show));
    StartsWithAppend(line, EvidenceLines(e, show) + BrandPart(e, a, show));
    if EvidenceLines(e, show) == "" && !HasBrandBlock(e, a) {
      assert line + "" + "" == line;
    }
  }

  /** One URL line per URL, in order, indexed by position when `many`. */
  function UrlLines(many: bool, urls: seq<string>): string
    decreases |urls|
  {
    if |urls| == 0 then "" else UrlLines(many, urls[..|urls| - 1]) + UrlLine(many, |urls| - 1, urls[|urls| - 1])
  }

  /** Records keyed by position with neither evidence lines nor brand block contribute their URL lines alone. */
  lemma {:induction false} BareSections(many: bool, d: Dict<UrlEvidence>, a: Analysis, show: Render,
                                        urls: seq<string>, k: nat)
    requires |d| == |urls| && k <= |d|
    requires forall i :: 0 <= i < |d| ==>
      d[i].0 == i && d[i].1.url == urls[i] && EvidenceLines(d[i].1, show) == "" && !HasBrandBlock(d[i].1, a)
    ensures Sections(many, d[..k], a, show) == UrlLines(many, urls[..k])
    decreases k
  {
    if k > 0 {
      BareSections(many, d, a, show, urls, k - 1);
      assert d[..k][..k - 1] == d[..k - 1];
      assert urls[..k][..k - 1] == urls[..k - 1];
      SectionShape(many, k - 1, d[k - 1].1, a, show);
    }
  }

  /** The sections of the URL records, in key order. */
  function Sections(many: bool, d: Dict<UrlEvidence>, a: Analysis, show: Render): string
    decreases |d|
  {
    if |d| == 0 then ""
    else Sections(many, d[..|d| - 1], a, show) + Section(many, d[|d| - 1].0, d[|d| - 1].1, a, show)
  }

  /** The analysis has URL sections: 'is_URL' holds and 'URLs' is not the sentinel. */
  predicate HasUrls(a: Analysis) {
    a.isUrl && !a.urls.NonUrls?
  }

  /**
   * The detection prompt. An analysis with 'is_URL' set whose 'URLs' is
   * still the raw list is excluded: the source fails on it (`.items()` of a
   * list), and the pipeline never builds one.
   */
  function Prompt(template: string, sms: string, a: Analysis, show: Render): (r: string)
    requires HasUrls(a) ==> a.urls.Analyzed?
    ensures StartsWith(r, Header(template, sms))
    ensures !HasUrls(a) ==> r == Header(template, sms) + NoUrlLine
  {
    var head := Header(template, sms);
    if HasUrls(a) then
      var d := a.urls.entries;
      var body := (if |d| > 1 then UrlCountLine(|d|) else "") + Sections(|d| > 1, d, a, show);
      assert (head + body)[..|head|] == head;
      head + body
    else
      assert (head + NoUrlLine)[..|head|] == head;
      head + NoUrlLine
  }

  /** The sections of two runs of records are those of the first run, then those of the second. */
  lemma {:induction false} SectionsAppend(many: bool, d: Dict<UrlEvidence>, e: Dict<UrlEvidence>, a: Analysis, show: Render)
    ensures Sections(many, d + e, a, show) == Sections(many, d, a, show) + Sections(many, e, a, show)
    decreases |e|
  {
    if |e| == 0 {
      assert d + e == d;
    } else {
      var init := e[..|e| - 1];
      var last := e[|e| - 1];
      assert (d + e)[..|d + e| - 1] == d + init;
      assert (d + e)[|d + e| - 1] == last;
      SectionsAppend(many, d, init, a, show);
      Assoc3(Sections(many, d, a, show), Sections(many, init, a, show), Section(many, last.0, last.1, a, show));
    }
  }

  /** The section of the first record opens the URL sections. */
  lemma SectionsFirst(many: bool, d: Dict<UrlEvidence>, a: Analysis, show: Render)
    requires |d| > 0
    ensures Sections(many, d, a, show) == Section(many, d[0].0, d[0].1, a, show) + Sections(many, d[1..], a, show)
  {
    var one := d[..1];
    assert d == one + d[1..];
    SectionsAppend(many, one, d[1..], a, show);
    assert |one[..0]| == 0;
    var s0 := Section(many, d[0].0, d[0].1, a, show);
    assert Sections(many, one, a, show) == "" + s0;
    assert "" + s0 == s0;
  }

  /** With exactly one URL: no count line, and the URL line carries no index. */
  lemma PromptOneUrl(template: string, sms: string, a: Analysis, show: Render)
    requires HasUrls(a) && a.urls.Analyzed? && |a.urls.entries| == 1
    ensures var e := a.urls.entries[0].1;
      Prompt(template, sms, a, show)
        == Header(template, sms) + (PlainUrlLine(e.url) + EvidenceLines(e, show) + BrandPart(e, a, show))
  {
    var d := a.urls.entries;
    SectionsFirst(false, d, a, show);
    assert Sections(false, d[1..], a, show) == "";
  }

  /**
   * With several URLs: the count line, then the sections in key order, the
   * first of them opening with the indexed line of the first key.
   */
  lemma PromptManyUrls(template: string, sms: string, a: Analysis, show: Render)
    requires HasUrls(a) && a.urls.Analyzed? && |a.urls.entries| > 1
    ensures var d := a.urls.entries;
      Prompt(template, sms, a, show) == Header(template, sms) + UrlCountLine(|d|) + Sections(true, d, a, show)
    ensures var d := a.urls.entries;
      StartsWith(Prompt(template, sms, a, show),
                 Header(template, sms) + UrlCountLine(|d|) + IndexedUrlLine(d[0].0, d[0].1.url))
  {
    var d := a.urls.entries;
    var h := Header(template, sms);
    var c := UrlCountLine(|d|);
    var first := IndexedUrlLine(d[0].0, d[0].1.url);
    var rest := EvidenceLines(d[0].1, show) + BrandPart(d[0].1, a, show) + Sections(true, d[1..], a, show);
    Assoc3(h, c, Sections(true, d, a, show));
    SectionsFirst(true, d, a, show);
    Assoc3(first, EvidenceLines(d[0].1, show) + BrandPart(d[0].1, a, show), Sections(true, d[1..], a, show));
    Assoc3(first, EvidenceLines(d[0].1, show), BrandPart(d[0].1, a, show));
    assert Sections(true, d, a, show) == first + rest;
    Assoc3(h + c, first, rest);
    StartsWithAppend(h + c + first, rest);
  }

  /** The no-URL line follows the SMS line exactly when there are no URL sections. */
  lemma PromptNoUrlLine(template: string, sms: string, a: Analysis, show: Render)
    requires HasUrls(a) ==> a.urls.Analyzed?
    ensures Prompt(template, sms, a, show) == Header(template, sms) + NoUrlLine <==> !HasUrls(a)
  {
    if HasUrls(a) {
      var h := Header(template, sms);
      var d := a.urls.entries;
      var many := |d| > 1;
      var body := (if many then UrlCountLine(|d|) else "") + Sections(many, d, a, show);
      assert Prompt(template, sms, a, show) == h + body;
      if |d| == 0 {
        assert |h + body| < |h + NoUrlLine|;
      } else {
        UrlBodyOpening(d, a, show);
        DiffersAfter(h, body, NoUrlLine);
      }
    }
  }

  /** The URL part of the prompt, when there is a URL, opens with "- T" or "- U", never "- N". */
  lemma UrlBodyOpening(d: Dict<UrlEvidence>, a: Analysis, show: Render)
    requires |d| > 0
    ensures var body := (if |d| > 1 then UrlCountLine(|d|) else "") + Sections(|d| > 1, d, a, show);
      |body| > 2 && body[2] != NoUrlLine[2]
  {
    if |d| > 1 {
      assert UrlCountLine(|d|)[2] == 'T';
    } else {
      SectionsFirst(false, d, a, show);
      assert PlainUrlLine(d[0].1.url)[2] == 'U';
    }
  }

  lemma DiffersAfter(h: string, x: string, y: string)
    requires |x| > 2 && |y| > 2 && x[2] != y[2]
    ensures h + x != h + y
  {
    assert (h + x)[|h| + 2] == x[2];
    assert (h + y)[|h| + 2] == y[2];
  }

  /**
   * `_build_detection_prompt`: appends to the template line by line, URL
   * by URL in key order, and, inside a URL's section, brand by brand.
   */
  method BuildDetectionPrompt(template: string, sms: string, a: Analysis, show: Render) returns (prompt: string)
    requires HasUrls(a) ==> a.urls.Analyzed?
    ensures prompt == Prompt(template, sms, a, show)
  {
    prompt := template;
    prompt := prompt + ("\n- SMS to be analyzed: " + sms + "\n");
    assert prompt == Header(template, sms);
    if a.isUrl && !a.urls.NonUrls? {
      var urls := a.urls.entries;
      var many := |urls| > 1;
      if many {
        prompt := prompt + UrlCountLine(|urls|);
      }
      ghost var head := prompt;
      for k := 0 to |urls|
        invariant prompt == head + Sections(many, urls[..k], a, show)
      {
        var (key, data) := urls[k];
        prompt := AppendUrlSection(prompt, many, key, data, a, show);
        SectionsSnoc(many, urls, k, a, show);
        Assoc3(head, Sections(many, urls[..k], a, show), Section(many, key, data, a, show));
      }
      assert urls[..|urls|] == urls;
      Assoc3(Header(template, sms), if many then UrlCountLine(|urls|) else "", Sections(many, urls, a, show));
    } else {
      prompt := prompt + NoUrlLine;
    }
  }

  lemma SectionsSnoc(many: bool, d: Dict<UrlEvidence>, k: nat, a: Analysis, show: Render)
    requires k < |d|
    ensures Sections(many, d[..k + 1], a, show) == Sections(many, d[..k], a, show) + Section(many, d[k].0, d[k].1, a, show)
  {
    assert d[..k + 1][..k] == d[..k];
  }

  /** One pass of the URL loop: the URL line, the evidence lines, the brand block. */
  method AppendUrlSection(prompt: string, many: bool, key: nat, data: UrlEvidence, a: Analysis, show: Render)
    returns (r: string)
    ensures r == prompt + Section(many, key, data, a, show)
  {
    var url := data.url;
    if many {
      r := prompt + IndexedUrlLine(key, url);
    } else {
      r := prompt + PlainUrlLine(url);
    }
    ghost var r0 := r;
    r := AppendEvidenceLines(r, data, show);
    ghost var r4 := r;
    if data.brandSearch.Val? && a.isBrand {
      r := AppendBrandBlock(r, Elements(a.brands), data.brandSearch.value, show);
    }
    assert r == r4 + BrandPart(data, a, show);
    assert r0 == prompt + UrlLine(many, key, url);
    Assoc3(prompt, UrlLine(many, key, url), EvidenceLines(data, show));
    Assoc3(prompt, UrlLine(many, key, url) + EvidenceLines(data, show), BrandPart(data, a, show));
  }

  /** The four optional evidence lines of one URL, each appended when its field is shown. */
  method AppendEvidenceLines(prompt: string, data: UrlEvidence, show: Render) returns (r: string)
    ensures r == prompt + EvidenceLines(data, show)
  {
    r := prompt;
    if data.redirectChain.Val? {
      r := r + ChainLine(data, show);
    }
    assert r == prompt + ChainPart(data, show);
    ghost var r1 := r;
    if Shown(data.htmlSummary) {
      r := r + SummaryLine(data);
    }
    assert r == r1 + SummaryPart(data);
    Assoc3(prompt, ChainPart(data, show), SummaryPart(data));
    ghost var r2 := r;
    if Shown(data.domainInfo) {
      r := r + DomainLine(data);
    }
    assert r == r2 + DomainPart(data);
    Assoc3(prompt, ChainPart(data, show) + SummaryPart(data), DomainPart(data));
    ghost var r3 := r;
    if Shown(data.imageContent) {
      r := r + ScreenshotLine(data);
    }
    assert r == r3 + ScreenshotPart(data);
    Assoc3(prompt, ChainPart(data, show) + SummaryPart(data) + DomainPart(data), ScreenshotPart(data));
  }

  /** The brand loop inside a URL's section. */
  method AppendBrandBlock(prompt: string, brands: seq<string>, search: Dict<BrandEntry>, show: Render)
    returns (r: string)
    ensures r == prompt + BrandBlock(brands, search, show)
  {
    r := prompt;
    if |brands| > 1 {
      r := r + BrandCountLine(|brands|);
    }
    ghost var top := r;
    for j := 0 to |brands|
      invariant r == top + BrandLines(brands[..j], search, show)
    {
      r := r + BrandNameLine(j, brands[j]);
      var domains := match Get(search, j) case None => [] case Some(entry) => entry.brandDomain;
      r := r + BrandResultsLine(domains, show);
      BrandLinesSnoc(brands, j, search, show);
      Assoc4(top, BrandLines(brands[..j], search, show), BrandNameLine(j, brands[j]), BrandResultsLine(domains, show));
    }
    assert brands[..|brands|] == brands;
    Assoc3(prompt, if |brands| > 1 then BrandCountLine(|brands|) else "", BrandLines(brands, search, show));
  }

  lemma BrandLinesSnoc(brands: seq<string>, j: nat, search: Dict<BrandEntry>, show: Render)
    requires j < |brands|
    ensures BrandLines(brands[..j + 1], search, show)
         == BrandLines(brands[..j], search, show) + (BrandNameLine(j, brands[j]) + BrandResultsLine(BrandDomains(search, j), show))
  {
    assert brands[..j + 1][..j] == brands[..j];
  }

  lemma Assoc3(a: string, b: string, c: string)
    ensures a + b + c == a + (b + c)
  {
  }

  lemma Assoc4(a: string, b: string, c: string, d: string)
    ensures a + b + c + d == a + (b + (c + d))
  {
  }
}
