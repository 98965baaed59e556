/**
 * The in-memory part of `analyze_url`: once the page body has been fetched
 * and parsed, assemble the report from the extractors, the link counter,
 * the issue rules and the scorer.
 *
 * The fetch and its timer, the HTML parser and the URL library are not
 * modelled: the body `html`, its parsed `doc`, the measured `loadTime` and
 * the functions `parse` and `join` are parameters.
 */
module Analyzer {
  import opened Wrappers
  import opened RustStr
  import opened Html
  import opened SeoTypes
  import opened Extract
  import opened Keywords
  import opened Links
  import opened Issues

  /** The report of a page whose base URL parses. */
  predicate IsReportOf(report: SeoReport, url: string, html: string, doc: Document, loadTime: real,
                       isAlnum: char -> bool, lower: string -> string,
                       base: ParsedUrl, join: (ParsedUrl, string) -> Option<ParsedUrl>)
  {
    && report.url == url
    && report.title == ExtractTitle(doc)
    && report.metaDescription == ExtractMetaDescription(doc)
    && report.h1Tags == ExtractH1Tags(doc)
    && report.h2Tags == ExtractH2Tags(doc)
    && report.keywordDensity == KeywordDensity(html, isAlnum, lower)
    && report.imagesWithoutAlt == CountImagesWithoutAlt(doc)
    && report.internalLinks == CountOutcome(Select(doc, AnchorSelector), base, join, Internal)
    && report.externalLinks == CountOutcome(Select(doc, AnchorSelector), base, join, External)
    && report.pageSize == Some(ByteLen(html))
    && report.loadTime == Some(loadTime)
    && report.structuredData == ExtractStructuredData(doc)
    && report.issues == ReportIssues(report)
    && report.score == ScoreOf(report.issues)
  }

  /**
   * `analyze_url` after the fetch: fails exactly when the URL itself does
   * not parse; otherwise the issues are those the rules derive from the
   * report's own fields and the score is at least 30.
   */
  method AnalyzePage(url: string, html: string, doc: Document, loadTime: real,
                     isAlnum: char -> bool, lower: string -> string,
                     parse: string -> Option<ParsedUrl>, join: (ParsedUrl, string) -> Option<ParsedUrl>)
    returns (r: Result<SeoReport, LinkError>)
    ensures r.Failure? <==> parse(url).None?
    ensures r.Success? ==> IsReportOf(r.value, url, html, doc, loadTime, isAlnum, lower, parse(url).value, join)
    ensures r.Success? ==> 30 <= r.value.score <= 100 && |r.value.issues| <= 4
  {
    var density := CalculateKeywordDensity(html, isAlnum, lower);
    var report := SeoReport(
      url := url,
      title := ExtractTitle(doc),
      metaDescription := ExtractMetaDescription(doc),
      h1Tags := ExtractH1Tags(doc),
      h2Tags := ExtractH2Tags(doc),
      keywordDensity := density,
      imagesWithoutAlt := CountImagesWithoutAlt(doc),
      internalLinks := 0,
      externalLinks := 0,
      pageSize := Some(ByteLen(html)),
      loadTime := Some(loadTime),
      structuredData := ExtractStructuredData(doc),
      issues := [],
      score := 0);

    var links := CountLinks(doc, url, parse, join);
    if links.Failure? {
      return Failure(links.error);
    }
    var (internal, external) := links.value;
    report := report.(internalLinks := internal, externalLinks := external);

    var issues := GenerateIssues(report);
    report := report.(issues := issues);
    assert ReportIssues(report) == issues;
    var score := CalculateScore(report);
    report := report.(score := score);
    ReportScoreAtLeast30(report);
    return Success(report);
  }

  /**
   * The issues depend on the title, the meta description, the H1 texts and
   * the image count only: two reports that agree there carry the same issues.
   */
  lemma IssuesDependOnRuleFields(a: SeoReport, b: SeoReport)
    requires a.title == b.title && a.metaDescription == b.metaDescription
    requires |a.h1Tags| == |b.h1Tags| && a.imagesWithoutAlt == b.imagesWithoutAlt
    ensures ReportIssues(a) == ReportIssues(b)
  {
  }
}
